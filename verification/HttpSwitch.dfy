/** One byte of HTTP: the state machine's switch.  A byte may be executed again in a
    further state; what it does to the marks and which callbacks it makes is returned as a
    list of acts. */
module HttpSwitch {
  import opened Common

  const CR := 13
  const LF := 10
  const SPACE := 32
  const TAB := 9
  const FORM_FEED := 12

  /** 2^64 - 1: no length is known. */
  const ULLONG_MAX := 0xFFFF_FFFF_FFFF_FFFF

  const HTTP_MAX_HEADER_SIZE := 80 * 1024

  // ---------- States ----------

  datatype Type = Request | Response | Both

  datatype State =
    | Dead | StartReqOrRes | ResOrRespH
    | StartRes | ResH | ResHT | ResHTT | ResHTTP | ResFirstMajor | ResMajor | ResFirstMinor | ResMinor
    | ResFirstStatusCode | ResStatusCode | ResStatus | ResLineAlmostDone
    | StartReq | ReqMethod | ReqSpacesBeforeUrl
    | ReqSchema | ReqSchemaSlash | ReqSchemaSlashSlash | ReqServerStart | ReqServer | ReqServerWithAt
    | ReqPath | ReqQueryStringStart | ReqQueryString | ReqFragmentStart | ReqFragment
    | ReqHttpStart | ReqHttpH | ReqHttpHT | ReqHttpHTT | ReqHttpHTTP
    | ReqFirstMajor | ReqMajor | ReqFirstMinor | ReqMinor | ReqLineAlmostDone
    | HeaderFieldStart | HeaderField | HeaderValueStart | HeaderValue | HeaderValueLws | HeaderAlmostDone
    | ChunkSizeStart | ChunkSize | ChunkParameters | ChunkSizeAlmostDone
    | HeadersAlmostDone | HeadersDone
    | ChunkData | ChunkDataAlmostDone | ChunkDataDone
    | BodyIdentity | BodyIdentityEof | MessageDone

  /** The states that count towards the header size. */
  predicate ParsingHeader(s: State) {
    !(s.ChunkData? || s.ChunkDataAlmostDone? || s.ChunkDataDone? || s.BodyIdentity? || s.BodyIdentityEof? || s.MessageDone?)
  }

  datatype HeaderState =
    | General | C | CO | CON
    | MatchingConnection | MatchingProxyConnection | MatchingContentLength | MatchingTransferEncoding | MatchingUpgrade
    | Connection | ContentLength | TransferEncoding | Upgrade
    | MatchingChunked | MatchingKeepAlive | MatchingClose
    | Chunked | KeepAlive | Close

  datatype Method =
    | DELETE | GET | HEAD | POST | PUT | CONNECT | OPTIONS | TRACE
    | COPY | LOCK | MKCOL | MOVE | PROPFIND | PROPPATCH | SEARCH | UNLOCK
    | REPORT | MKACTIVITY | CHECKOUT | MERGE
    | MSEARCH | NOTIFY | SUBSCRIBE | UNSUBSCRIBE | PATCH | PURGE

  function MethodString(m: Method): string {
    match m
    case DELETE => "DELETE" case GET => "GET" case HEAD => "HEAD" case POST => "POST" case PUT => "PUT"
    case CONNECT => "CONNECT" case OPTIONS => "OPTIONS" case TRACE => "TRACE" case COPY => "COPY" case LOCK => "LOCK"
    case MKCOL => "MKCOL" case MOVE => "MOVE" case PROPFIND => "PROPFIND" case PROPPATCH => "PROPPATCH"
    case SEARCH => "SEARCH" case UNLOCK => "UNLOCK" case REPORT => "REPORT" case MKACTIVITY => "MKACTIVITY"
    case CHECKOUT => "CHECKOUT" case MERGE => "MERGE" case MSEARCH => "M-SEARCH" case NOTIFY => "NOTIFY"
    case SUBSCRIBE => "SUBSCRIBE" case UNSUBSCRIBE => "UNSUBSCRIBE" case PATCH => "PATCH" case PURGE => "PURGE"
  }

  datatype Flags = Flags(chunked: bool, keepAlive: bool, close: bool, trailing: bool, upgrade: bool, skipBody: bool)

  const NO_FLAGS := Flags(false, false, false, false, false, false)

  datatype Errno = Strict | HeaderOverflow | ClosedConnection | InvalidVersion | InvalidStatus | InvalidMethod | InvalidUrl
    | LfExpected | InvalidHeaderToken | InvalidContentLength | InvalidChunkSize | InvalidConstant | InvalidEofState | Unknown

  /** The fields of the parser that the machine reads and writes. */
  datatype Parser = Parser(kind: Type, state: State, header: HeaderState, index: nat, flags: Flags,
                           nread: nat, contentLength: nat, major: nat, minor: nat, status: nat,
                           verb: Method, upgrade: bool)

  // ---------- Outcomes of a byte ----------

  /** An answer of on_headers_complete for every message that it may be called with. */
  type Answer = Parser -> bool

  datatype Token = Url | Field | Value | Body

  datatype Note = MessageBegin | StatusComplete | HeadersComplete | MessageComplete

  /** Set a mark; report the marked bytes, without or with the current one; notify. */
  datatype Act = Open(token: Token) | CloseMark(token: Token) | CloseWith(token: Token) | Notify(note: Note)

  /** Consume the byte; execute it again; fail; leave the loop; fail an assertion. */
  datatype Next = Done | Again | Fail(error: Errno) | Leave | Broken

  datatype Out = Out(p: Parser, acts: seq<Act>, next: Next)

  function To(p: Parser, s: State): Out { Out(p.(state := s), [], Done) }

  function Stay(p: Parser): Out { Out(p, [], Done) }

  function Error(p: Parser, e: Errno): Out { Out(p, [], Fail(e)) }

  // ---------- Characters ----------

  predicate IsNum(ch: Byte) { '0' as int <= ch <= '9' as int }

  predicate IsAlpha(ch: Byte) { 'a' as int <= Lower(ch) <= 'z' as int }

  /** ch | 0x20. */
  function Lower(ch: Byte): Byte { if ch / 32 % 2 == 1 then ch else ch + 32 }

  predicate IsMark(ch: Byte) {
    ch == '-' as int || ch == '_' as int || ch == '.' as int || ch == '!' as int || ch == '~' as int
    || ch == '*' as int || ch == '\'' as int || ch == '(' as int || ch == ')' as int
  }

  predicate IsUserinfoChar(ch: Byte) {
    IsAlpha(ch) || IsNum(ch) || IsMark(ch) || ch == '%' as int || ch == ';' as int || ch == ':' as int
    || ch == '&' as int || ch == '=' as int || ch == '+' as int || ch == '$' as int || ch == ',' as int
  }

  /** The strict table of URL characters: printable, but neither '#' nor '?'. */
  predicate IsUrlChar(ch: Byte) { 33 <= ch <= 126 && ch != '#' as int && ch != '?' as int }

  /** The token table: the character in lower case, or 0 if it is no token character. */
  function TokenOf(ch: Byte): Byte {
    if 'A' as int <= ch <= 'Z' as int then ch + 32
    else if IsNum(ch) || 'a' as int <= ch <= 'z' as int || ch == '!' as int || '#' as int <= ch <= '\'' as int
            || ch == '*' as int || ch == '+' as int || ch == '-' as int || ch == '.' as int
            || ch == '^' as int || ch == '_' as int || ch == '`' as int || ch == '|' as int || ch == '~' as int
    then ch else 0
  }

  /** The value of a hexadecimal digit, or -1.  Only the first half of the table is spelled
      out, so bytes from 128 on count as the digit 0. */
  function Unhex(ch: Byte): (v: int)
    ensures -1 <= v < 16
  {
    if ch >= 128 then 0
    else if IsNum(ch) then ch - '0' as int
    else if 'A' as int <= ch <= 'F' as int then ch - 'A' as int + 10
    else if 'a' as int <= ch <= 'f' as int then ch - 'a' as int + 10
    else -1
  }

  function Digit(ch: Byte): nat
    requires IsNum(ch)
  {
    ch - '0' as int
  }

  // ---------- URLs ----------

  /** parse_url_char; Dead is its error. */
  function ParseUrlChar(s: State, ch: Byte): State {
    if ch == SPACE || ch == CR || ch == LF || ch == TAB || ch == FORM_FEED then Dead
    else
      match s
      case ReqSpacesBeforeUrl =>
        if ch == '/' as int || ch == '*' as int then ReqPath else if IsAlpha(ch) then ReqSchema else Dead
      case ReqSchema =>
        if IsAlpha(ch) then s else if ch == ':' as int then ReqSchemaSlash else Dead
      case ReqSchemaSlash =>
        if ch == '/' as int then ReqSchemaSlashSlash else Dead
      case ReqSchemaSlashSlash =>
        if ch == '/' as int then ReqServerStart else Dead
      case ReqServerWithAt =>
        if ch == '@' as int then Dead else ParseServerChar(ch)
      case ReqServerStart =>
        ParseServerChar(ch)
      case ReqServer =>
        ParseServerChar(ch)
      case ReqPath =>
        if IsUrlChar(ch) then s
        else if ch == '?' as int then ReqQueryStringStart else if ch == '#' as int then ReqFragmentStart else Dead
      case ReqQueryStringStart =>
        ParseQueryChar(ch)
      case ReqQueryString =>
        ParseQueryChar(ch)
      case ReqFragmentStart =>
        if IsUrlChar(ch) then ReqFragment
        else if ch == '?' as int then ReqFragment else if ch == '#' as int then s else Dead
      case ReqFragment =>
        if IsUrlChar(ch) || ch == '?' as int || ch == '#' as int then s else Dead
      case _ => Dead
  }

  function ParseServerChar(ch: Byte): State {
    if ch == '/' as int then ReqPath
    else if ch == '?' as int then ReqQueryStringStart
    else if ch == '@' as int then ReqServerWithAt
    else if IsUserinfoChar(ch) || ch == '[' as int || ch == ']' as int then ReqServer
    else Dead
  }

  function ParseQueryChar(ch: Byte): State {
    if IsUrlChar(ch) || ch == '?' as int then ReqQueryString
    else if ch == '#' as int then ReqFragmentStart else Dead
  }

  predicate UrlState(s: State) {
    s.ReqSchema? || s.ReqSchemaSlash? || s.ReqSchemaSlashSlash? || s.ReqServerStart? || s.ReqServer? || s.ReqServerWithAt?
    || s.ReqPath? || s.ReqQueryStringStart? || s.ReqQueryString? || s.ReqFragmentStart? || s.ReqFragment?
  }

  function UrlByte(p: Parser, ch: Byte, acts: seq<Act>): Out {
    var s := ParseUrlChar(p.state, ch);
    if s == Dead then Out(p.(state := Dead), acts, Fail(InvalidUrl)) else Out(p.(state := s), acts, Done)
  }

  function UrlSwitch(p: Parser, ch: Byte): Out {
    match p.state
    case ReqSpacesBeforeUrl =>
      if ch == SPACE then Stay(p)
      else UrlByte(if p.verb == CONNECT then p.(state := ReqServerStart) else p, ch, [Open(Url)])
    case ReqSchema => SchemaByte(p, ch)
    case ReqSchemaSlash => SchemaByte(p, ch)
    case ReqSchemaSlashSlash => SchemaByte(p, ch)
    case ReqServerStart => SchemaByte(p, ch)
    case _ =>
      if ch == SPACE then Out(p.(state := ReqHttpStart), [CloseMark(Url)], Done)
      else if ch == CR || ch == LF then
        Out(p.(major := 0, minor := 9, state := if ch == CR then ReqLineAlmostDone else HeaderFieldStart), [CloseMark(Url)], Done)
      else UrlByte(p, ch, [])
  }

  function SchemaByte(p: Parser, ch: Byte): Out {
    if ch == SPACE || ch == CR || ch == LF then Error(p, InvalidUrl) else UrlByte(p, ch, [])
  }

  // ---------- Start lines ----------

  function Expect(p: Parser, ok: bool, s: State): Out {
    if ok then To(p, s) else Error(p, Strict)
  }

  function MajorByte(p: Parser, ch: Byte, dot: State): Out {
    if ch == '.' as int then To(p, dot)
    else if !IsNum(ch) then Error(p, InvalidVersion)
    else
      var n := p.major * 10 + Digit(ch);
      if n > 999 then Error(p.(major := n), InvalidVersion) else Stay(p.(major := n))
  }

  function MinorByte(p: Parser, ch: Byte): Out {
    if !IsNum(ch) then Error(p, InvalidVersion)
    else
      var n := p.minor * 10 + Digit(ch);
      if n > 999 then Error(p.(minor := n), InvalidVersion) else Stay(p.(minor := n))
  }

  function FirstMinor(p: Parser, ch: Byte, s: State): Out {
    if !IsNum(ch) then Error(p, InvalidVersion) else To(p.(minor := Digit(ch)), s)
  }

  function StartSwitch(p: Parser, ch: Byte): Out {
    match p.state
    case Dead =>
      if ch == CR || ch == LF then Stay(p) else Error(p, ClosedConnection)
    case StartReqOrRes =>
      if ch == CR || ch == LF then Stay(p)
      else
        var q := p.(flags := NO_FLAGS, contentLength := ULLONG_MAX);
        if ch == 'H' as int then Out(q.(state := ResOrRespH), [Notify(MessageBegin)], Done)
        else Out(q.(kind := Request, state := StartReq), [], Again)
    case ResOrRespH =>
      if ch == 'T' as int then To(p.(kind := Response), ResHT)
      else if ch != 'E' as int then Error(p, InvalidConstant)
      else To(p.(kind := Request, verb := HEAD, index := 2), ReqMethod)
    case StartRes =>
      var q := p.(flags := NO_FLAGS, contentLength := ULLONG_MAX);
      if ch == 'H' as int then Out(q.(state := ResH), [Notify(MessageBegin)], Done)
      else if ch == CR || ch == LF then Out(q, [Notify(MessageBegin)], Done)
      else Error(q, InvalidConstant)
    case StartReq =>
      if ch == CR || ch == LF then Stay(p)
      else
        var q := p.(flags := NO_FLAGS, contentLength := ULLONG_MAX);
        if !IsAlpha(ch) then Error(q, InvalidMethod)
        else
          var r := q.(verb := DELETE, index := 1);
          (match FirstMethod(ch)
           case None => Error(r, InvalidMethod)
           case Some(m) => Out(r.(verb := m, state := ReqMethod), [Notify(MessageBegin)], Done))
    case ReqMethod => MethodByte(p, ch)
    case _ => Error(p, Unknown)
  }

  /** The first method tried for an initial letter. */
  function FirstMethod(ch: Byte): Option<Method> {
    if ch == 'C' as int then Some(CONNECT) else if ch == 'D' as int then Some(DELETE) else if ch == 'G' as int then Some(GET)
    else if ch == 'H' as int then Some(HEAD) else if ch == 'L' as int then Some(LOCK) else if ch == 'M' as int then Some(MKCOL)
    else if ch == 'N' as int then Some(NOTIFY) else if ch == 'O' as int then Some(OPTIONS) else if ch == 'P' as int then Some(POST)
    else if ch == 'R' as int then Some(REPORT) else if ch == 'S' as int then Some(SUBSCRIBE) else if ch == 'T' as int then Some(TRACE)
    else if ch == 'U' as int then Some(UNLOCK) else None
  }

  /** A byte of the method name.  At index 2 any byte is taken. */
  function MethodByte(p: Parser, ch: Byte): Out {
    if ch == 0 then Error(p, InvalidMethod)
    else if p.index > |MethodString(p.verb)| then Out(p, [], Broken)
    else
      var name, i := MethodString(p.verb), p.index;
      var next := p.(index := i + 1);
      if ch == SPACE && i == |name| then To(next, ReqSpacesBeforeUrl)
      else if i < |name| && ch == name[i] as int then Stay(next)
      else (
        match OtherMethod(p.verb, i, ch)
        case None => Error(p, if p.verb == CONNECT || p.verb == MKCOL || p.verb == SUBSCRIBE || (i == 1 && p.verb == POST) then Unknown else InvalidMethod)
        case Some(m) => Stay(next.(verb := m)))
  }

  /** The method that a mismatch at index i leads to: another name with the same start, or,
      at index 2, the same one. */
  function OtherMethod(m: Method, i: nat, ch: Byte): Option<Method> {
    if m == CONNECT then
      if i == 1 && ch == 'H' as int then Some(CHECKOUT) else if i == 2 && ch == 'P' as int then Some(COPY) else None
    else if m == MKCOL then
      if i == 1 && ch == 'O' as int then Some(MOVE)
      else if i == 1 && ch == 'E' as int then Some(MERGE)
      else if i == 1 && ch == '-' as int then Some(MSEARCH)
      else if i == 2 && ch == 'A' as int then Some(MKACTIVITY)
      else None
    else if m == SUBSCRIBE then
      if i == 1 && ch == 'E' as int then Some(SEARCH) else None
    else if i == 1 && m == POST then
      if ch == 'R' as int then Some(PROPFIND) else if ch == 'U' as int then Some(PUT) else if ch == 'A' as int then Some(PATCH) else None
    else if i == 2 then
      if m == PUT && ch == 'R' as int then Some(PURGE) else if m == UNLOCK && ch == 'S' as int then Some(UNSUBSCRIBE) else Some(m)
    else if i == 4 && m == PROPFIND && ch == 'P' as int then Some(PROPPATCH)
    else None
  }

  function ResponseSwitch(p: Parser, ch: Byte): Out {
    match p.state
    case ResH => Expect(p, ch == 'T' as int, ResHT)
    case ResHT => Expect(p, ch == 'T' as int, ResHTT)
    case ResHTT => Expect(p, ch == 'P' as int, ResHTTP)
    case ResHTTP => Expect(p, ch == '/' as int, ResFirstMajor)
    case ResFirstMajor =>
      if !IsNum(ch) then Error(p, InvalidVersion) else To(p.(major := Digit(ch)), ResMajor)
    case ResMajor => MajorByte(p, ch, ResFirstMinor)
    case ResFirstMinor => FirstMinor(p, ch, ResMinor)
    case ResMinor =>
      if ch == SPACE then To(p, ResFirstStatusCode) else MinorByte(p, ch)
    case ResFirstStatusCode =>
      if IsNum(ch) then To(p.(status := Digit(ch)), ResStatusCode)
      else if ch == SPACE then Stay(p) else Error(p, InvalidStatus)
    case ResStatusCode =>
      if IsNum(ch) then
        var n := p.status * 10 + Digit(ch);
        if n > 999 then Error(p.(status := n), InvalidStatus) else Stay(p.(status := n))
      else if ch == SPACE then To(p, ResStatus)
      else if ch == CR then To(p, ResLineAlmostDone)
      else if ch == LF then To(p, HeaderFieldStart)
      else Error(p, InvalidStatus)
    case ResStatus =>
      if ch == CR then To(p, ResLineAlmostDone) else if ch == LF then To(p, HeaderFieldStart) else Stay(p)
    case ResLineAlmostDone =>
      if ch != LF then Error(p, Strict) else Out(p.(state := HeaderFieldStart), [Notify(StatusComplete)], Done)
    case _ => Error(p, Unknown)
  }

  function RequestSwitch(p: Parser, ch: Byte): Out {
    match p.state
    case ReqHttpStart =>
      if ch == 'H' as int then To(p, ReqHttpH) else if ch == SPACE then Stay(p) else Error(p, InvalidConstant)
    case ReqHttpH => Expect(p, ch == 'T' as int, ReqHttpHT)
    case ReqHttpHT => Expect(p, ch == 'T' as int, ReqHttpHTT)
    case ReqHttpHTT => Expect(p, ch == 'P' as int, ReqHttpHTTP)
    case ReqHttpHTTP => Expect(p, ch == '/' as int, ReqFirstMajor)
    case ReqFirstMajor =>
      if !IsNum(ch) || ch == '0' as int then Error(p, InvalidVersion) else To(p.(major := Digit(ch)), ReqMajor)
    case ReqMajor => MajorByte(p, ch, ReqFirstMinor)
    case ReqFirstMinor => FirstMinor(p, ch, ReqMinor)
    case ReqMinor =>
      if ch == CR then To(p, ReqLineAlmostDone) else if ch == LF then To(p, HeaderFieldStart) else MinorByte(p, ch)
    case ReqLineAlmostDone =>
      if ch != LF then Error(p, LfExpected) else To(p, HeaderFieldStart)
    case _ => Error(p, Unknown)
  }

  // ---------- Headers ----------

  function MatchedName(h: HeaderState): string {
    match h
    case MatchingConnection => "connection"
    case MatchingProxyConnection => "proxy-connection"
    case MatchingContentLength => "content-length"
    case MatchingTransferEncoding => "transfer-encoding"
    case MatchingUpgrade => "upgrade"
    case MatchingChunked => "chunked"
    case MatchingKeepAlive => "keep-alive"
    case MatchingClose => "close"
    case _ => ""
  }

  function AfterMatch(h: HeaderState): HeaderState {
    match h
    case MatchingConnection => Connection
    case MatchingProxyConnection => Connection
    case MatchingContentLength => ContentLength
    case MatchingTransferEncoding => TransferEncoding
    case MatchingUpgrade => Upgrade
    case MatchingChunked => Chunked
    case MatchingKeepAlive => KeepAlive
    case MatchingClose => Close
    case _ => General
  }

  /** One more character of a name being matched: the index moves, and the match goes on,
      is complete at the last character, or is given up. */
  function MatchByte(p: Parser, c: Byte): Parser {
    var name, i := MatchedName(p.header), p.index + 1;
    if i > |name| || (if i == |name| then c != 0 else c != name[i] as int) then p.(index := i, header := General)
    else if i == |name| - 1 then p.(index := i, header := AfterMatch(p.header))
    else p.(index := i)
  }

  /** A character of a field name; None stands for the assertion on an unknown state. */
  function FieldByte(p: Parser, ch: Byte, c: Byte): Option<Parser> {
    match p.header
    case General => Some(p)
    case C => Some(p.(index := p.index + 1, header := if c == 'o' as int then CO else General))
    case CO => Some(p.(index := p.index + 1, header := if c == 'n' as int then CON else General))
    case CON =>
      Some(p.(index := p.index + 1,
              header := if c == 'n' as int then MatchingConnection else if c == 't' as int then MatchingContentLength else General))
    case MatchingConnection => Some(MatchByte(p, c))
    case MatchingProxyConnection => Some(MatchByte(p, c))
    case MatchingContentLength => Some(MatchByte(p, c))
    case MatchingTransferEncoding => Some(MatchByte(p, c))
    case MatchingUpgrade => Some(MatchByte(p, c))
    case Connection => Some(if ch != SPACE then p.(header := General) else p)
    case ContentLength => Some(if ch != SPACE then p.(header := General) else p)
    case TransferEncoding => Some(if ch != SPACE then p.(header := General) else p)
    case Upgrade => Some(if ch != SPACE then p.(header := General) else p)
    case _ => None
  }

  function FieldSwitch(p: Parser, ch: Byte): Out {
    var c := TokenOf(ch);
    if p.state.HeaderFieldStart? then
      if ch == CR then To(p, HeadersAlmostDone)
      else if ch == LF then Out(p.(state := HeadersAlmostDone), [], Again)
      else if c == 0 then Error(p, InvalidHeaderToken)
      else
        Out(p.(index := 0, state := HeaderField,
               header := if c == 'c' as int then C
                         else if c == 'p' as int then MatchingProxyConnection
                         else if c == 't' as int then MatchingTransferEncoding
                         else if c == 'u' as int then MatchingUpgrade else General),
            [Open(Field)], Done)
    else if c != 0 then
      (match FieldByte(p, ch, c)
       case None => Out(p, [], Broken)
       case Some(q) => Stay(q))
    else if ch == ':' as int then Out(p.(state := HeaderValueStart), [CloseMark(Field)], Done)
    else if ch == CR then Out(p.(state := HeaderAlmostDone), [CloseMark(Field)], Done)
    else if ch == LF then Out(p.(state := HeaderFieldStart), [CloseMark(Field)], Done)
    else Error(p, InvalidHeaderToken)
  }

  /** Appends a digit to a length kept in 64 bits; None is the overflow test firing. */
  function AppendDigit(length: nat, base: nat, digit: nat): Option<nat> {
    var t := (length * base + digit) % (ULLONG_MAX + 1);
    if t < length || t == ULLONG_MAX then None else Some(t)
  }

  /** The first character of a header value. */
  function ValueStart(p: Parser, ch: Byte): Out {
    var q := p.(state := HeaderValue, index := 0);
    var c := Lower(ch);
    if ch == SPACE || ch == TAB then Stay(p)
    else if ch == CR then Out(q.(header := General, state := HeaderAlmostDone), [Open(Value), CloseMark(Value)], Done)
    else if ch == LF then Out(q.(state := HeaderFieldStart), [Open(Value), CloseMark(Value)], Done)
    else
      match q.header
      case Upgrade => Out(q.(flags := q.flags.(upgrade := true), header := General), [Open(Value)], Done)
      case TransferEncoding =>
        Out(q.(header := if c == 'c' as int then MatchingChunked else General), [Open(Value)], Done)
      case ContentLength =>
        if !IsNum(ch) then Out(q, [Open(Value)], Fail(InvalidContentLength))
        else Out(q.(contentLength := Digit(ch)), [Open(Value)], Done)
      case Connection =>
        Out(q.(header := if c == 'k' as int then MatchingKeepAlive else if c == 'c' as int then MatchingClose else General),
            [Open(Value)], Done)
      case _ => Out(q.(header := General), [Open(Value)], Done)
  }

  /** A further character of a header value. */
  function ValueByte(p: Parser, ch: Byte): Out {
    var c := Lower(ch);
    if ch == CR then Out(p.(state := HeaderAlmostDone), [CloseMark(Value)], Done)
    else if ch == LF then Out(p.(state := HeaderAlmostDone), [CloseMark(Value)], Again)
    else
      match p.header
      case General => Stay(p)
      case Connection => Out(p, [], Broken)
      case TransferEncoding => Out(p, [], Broken)
      case ContentLength =>
        if ch == SPACE then Stay(p)
        else if !IsNum(ch) then Error(p, InvalidContentLength)
        else (
          match AppendDigit(p.contentLength, 10, Digit(ch))
          case None => Error(p, InvalidContentLength)
          case Some(t) => Stay(p.(contentLength := t)))
      case MatchingChunked => Stay(MatchByte(p, c))
      case MatchingKeepAlive => Stay(MatchByte(p, c))
      case MatchingClose => Stay(MatchByte(p, c))
      case Chunked => Stay(if ch != SPACE then p.(header := General) else p)
      case KeepAlive => Stay(if ch != SPACE then p.(header := General) else p)
      case Close => Stay(if ch != SPACE then p.(header := General) else p)
      case _ => Stay(p.(header := General))
  }

  function HeaderSwitch(p: Parser, ch: Byte): Out {
    match p.state
    case HeaderValueStart => ValueStart(p, ch)
    case HeaderValue => ValueByte(p, ch)
    case HeaderAlmostDone =>
      if ch != LF then Error(p, Strict)
      else
        var f := match p.header
                 case KeepAlive => p.flags.(keepAlive := true)
                 case Close => p.flags.(close := true)
                 case Chunked => p.flags.(chunked := true)
                 case _ => p.flags;
        To(p.(flags := f), HeaderValueLws)
    case HeaderValueLws =>
      if ch == SPACE || ch == TAB then To(p, HeaderValueStart) else Out(p.(state := HeaderFieldStart), [], Again)
    case _ => FieldSwitch(p, ch)
  }

  // ---------- The end of a message ----------

  /** Section 4.4 of RFC 2616: is the body ended only by the end of the connection? */
  predicate MessageNeedsEof(p: Parser) {
    && p.kind != Request
    && !(p.status / 100 == 1 || p.status == 204 || p.status == 304 || p.flags.skipBody)
    && !p.flags.chunked && p.contentLength == ULLONG_MAX
  }

  predicate ShouldKeepAlive(p: Parser) {
    && (if p.major > 0 && p.minor > 0 then !p.flags.close else p.flags.keepAlive)
    && !MessageNeedsEof(p)
  }

  function NewMessage(p: Parser): Parser {
    p.(state := if !ShouldKeepAlive(p) then Dead else if p.kind == Request then StartReq else StartRes)
  }

  function Complete(p: Parser, next: Next): Out { Out(NewMessage(p), [Notify(MessageComplete)], next) }

  /** The end of the headers; skip is what on_headers_complete answers for the message at
      hand: no body follows. */
  function EndSwitch(p: Parser, ch: Byte, skip: Answer): Out {
    if ch != LF then Error(p, Strict)
    else if p.state.HeadersAlmostDone? then
      if p.flags.trailing then Complete(p, Done)
      else
        var q := p.(state := HeadersDone, upgrade := p.flags.upgrade || p.verb == CONNECT);
        Out(if skip(q) then q.(flags := q.flags.(skipBody := true)) else q, [Notify(HeadersComplete)], Again)
    else
      var q := p.(nread := 0);
      if p.upgrade then Complete(q, Leave)
      else if p.flags.skipBody then Complete(q, Done)
      else if p.flags.chunked then To(q, ChunkSizeStart)
      else if p.contentLength == 0 then Complete(q, Done)
      else if p.contentLength != ULLONG_MAX then To(q, BodyIdentity)
      else if p.kind == Request || !MessageNeedsEof(p) then Complete(q, Done)
      else To(q, BodyIdentityEof)
  }

  // ---------- Chunks ----------

  function ChunkSwitch(p: Parser, ch: Byte): Out {
    if (p.state.ChunkSizeStart? && p.nread != 1) || !p.flags.chunked then Out(p, [], Broken)
    else
      match p.state
      case ChunkSizeStart =>
        if Unhex(ch) == -1 then Error(p, InvalidChunkSize) else To(p.(contentLength := Unhex(ch)), ChunkSize)
      case ChunkSize =>
        if ch == CR then To(p, ChunkSizeAlmostDone)
        else if Unhex(ch) == -1 then
          if ch == ';' as int || ch == SPACE then To(p, ChunkParameters) else Error(p, InvalidChunkSize)
        else (
          match AppendDigit(p.contentLength, 16, Unhex(ch))
          case None => Error(p, InvalidContentLength)
          case Some(t) => Stay(p.(contentLength := t)))
      case ChunkParameters =>
        if ch == CR then To(p, ChunkSizeAlmostDone) else Stay(p)
      case ChunkSizeAlmostDone =>
        if ch != LF then Error(p, Strict)
        else if p.contentLength == 0 then To(p.(nread := 0, flags := p.flags.(trailing := true)), HeaderFieldStart)
        else To(p.(nread := 0), ChunkData)
      case ChunkDataAlmostDone =>
        if p.contentLength != 0 then Out(p, [], Broken)
        else if ch != CR then Error(p, Strict)
        else Out(p.(state := ChunkDataDone), [CloseMark(Body)], Done)
      case _ =>
        if ch != LF then Error(p, Strict) else To(p.(nread := 0), ChunkSizeStart)
  }

  // ---------- Bodies, as if read byte by byte ----------

  function BodySwitch(p: Parser, ch: Byte): Out {
    match p.state
    case BodyIdentity =>
      if p.contentLength == 0 || p.contentLength == ULLONG_MAX then Out(p, [], Broken)
      else
        var q := p.(contentLength := p.contentLength - 1);
        if q.contentLength == 0 then Out(q.(state := MessageDone), [Open(Body), CloseWith(Body)], Again)
        else Out(q, [Open(Body)], Done)
    case BodyIdentityEof => Out(p, [Open(Body)], Done)
    case MessageDone => Complete(p, Done)
    case _ =>
      if !p.flags.chunked || p.contentLength == 0 || p.contentLength == ULLONG_MAX then Out(p, [], Broken)
      else
        var q := p.(contentLength := p.contentLength - 1);
        Out(if q.contentLength == 0 then q.(state := ChunkDataAlmostDone) else q, [Open(Body)], Done)
  }

  // ---------- The switch ----------

  datatype Group = InStart | InResponse | InRequest | InUrl | InHeader | AtEnd | InChunk | InBody

  function GroupOf(s: State): Group {
    match s
    case Dead => InStart case StartReqOrRes => InStart case ResOrRespH => InStart case StartRes => InStart
    case StartReq => InStart case ReqMethod => InStart
    case ResH => InResponse case ResHT => InResponse case ResHTT => InResponse case ResHTTP => InResponse
    case ResFirstMajor => InResponse case ResMajor => InResponse case ResFirstMinor => InResponse case ResMinor => InResponse
    case ResFirstStatusCode => InResponse case ResStatusCode => InResponse case ResStatus => InResponse
    case ResLineAlmostDone => InResponse
    case ReqHttpStart => InRequest case ReqHttpH => InRequest case ReqHttpHT => InRequest case ReqHttpHTT => InRequest
    case ReqHttpHTTP => InRequest case ReqFirstMajor => InRequest case ReqMajor => InRequest case ReqFirstMinor => InRequest
    case ReqMinor => InRequest case ReqLineAlmostDone => InRequest
    case HeaderFieldStart => InHeader case HeaderField => InHeader case HeaderValueStart => InHeader case HeaderValue => InHeader
    case HeaderValueLws => InHeader case HeaderAlmostDone => InHeader
    case HeadersAlmostDone => AtEnd case HeadersDone => AtEnd
    case ChunkSizeStart => InChunk case ChunkSize => InChunk case ChunkParameters => InChunk case ChunkSizeAlmostDone => InChunk
    case ChunkDataAlmostDone => InChunk case ChunkDataDone => InChunk
    case ChunkData => InBody case BodyIdentity => InBody case BodyIdentityEof => InBody case MessageDone => InBody
    case _ => InUrl
  }

  function Switch(p: Parser, ch: Byte, skip: Answer): Out {
    match GroupOf(p.state)
    case InStart => StartSwitch(p, ch)
    case InResponse => ResponseSwitch(p, ch)
    case InRequest => RequestSwitch(p, ch)
    case InUrl => UrlSwitch(p, ch)
    case InHeader => HeaderSwitch(p, ch)
    case AtEnd => EndSwitch(p, ch, skip)
    case InChunk => ChunkSwitch(p, ch)
    case InBody => BodySwitch(p, ch)
  }
}
