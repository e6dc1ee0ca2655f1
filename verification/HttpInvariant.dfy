/** What holds in every reachable state of the parser: no assertion fails, no index leaves
    its string, and the marks agree with the state. */
module HttpInvariant {
  import opened Common
  import opened HttpSwitch
  import opened HttpRun

  /** Where the machine is in a field name: the next character to compare exists. */
  predicate FieldOk(h: HeaderState, i: nat) {
    match h
    case General => true
    case C => i == 0
    case CO => i == 1
    case CON => i == 2
    case Connection => true
    case ContentLength => true
    case TransferEncoding => true
    case Upgrade => true
    case MatchingChunked => false
    case MatchingKeepAlive => false
    case MatchingClose => false
    case Chunked => false
    case KeepAlive => false
    case Close => false
    case _ => i + 1 < |MatchedName(h)|
  }

  predicate ValueOk(h: HeaderState, i: nat) {
    match h
    case General => true
    case ContentLength => true
    case Chunked => true
    case KeepAlive => true
    case Close => true
    case MatchingChunked => i + 1 < |MatchedName(h)|
    case MatchingKeepAlive => i + 1 < |MatchedName(h)|
    case MatchingClose => i + 1 < |MatchedName(h)|
    case _ => false
  }

  /** The fields fit their C types, and agree with the state. */
  predicate Core(p: Parser) {
    && p.contentLength <= ULLONG_MAX && p.nread <= HTTP_MAX_HEADER_SIZE && p.index <= 20
    && p.major <= 999 && p.minor <= 999 && p.status <= 999
    && match p.state
       case ReqMethod => 1 <= p.index <= |MethodString(p.verb)|
       case HeaderField => FieldOk(p.header, p.index)
       case HeaderValue => ValueOk(p.header, p.index)
       case BodyIdentity => 0 < p.contentLength < ULLONG_MAX
       case ChunkData => p.flags.chunked && 0 < p.contentLength < ULLONG_MAX
       case ChunkSizeStart => p.flags.chunked
       case ChunkSize => p.flags.chunked && p.contentLength < ULLONG_MAX
       case ChunkParameters => p.flags.chunked && p.contentLength < ULLONG_MAX
       case ChunkSizeAlmostDone => p.flags.chunked && p.contentLength < ULLONG_MAX
       case ChunkDataAlmostDone => p.flags.chunked && p.contentLength == 0
       case ChunkDataDone => p.flags.chunked
       case _ => true
  }

  /** Between bytes. */
  predicate AtRest(p: Parser) { Core(p) && (p.state == ChunkSizeStart ==> p.nread == 0) }

  /** While a byte is executed, after it has been counted. */
  predicate Busy(p: Parser) { Core(p) && (p.state == ChunkSizeStart ==> p.nread == 1) }

  /** http_parser_init. */
  function Init(kind: Type): (p: Parser)
    ensures AtRest(p)
  {
    Parser(kind, if kind == Request then StartReq else if kind == Response then StartRes else StartReqOrRes,
           General, 0, NO_FLAGS, 0, 0, 0, 0, 0, DELETE, false)
  }

  predicate StepOk(o: Out) {
    match o.next
    case Done => AtRest(o.p)
    case Leave => AtRest(o.p)
    case Again => Busy(o.p)
    case Fail(_) => true
    case Broken => false
  }

  lemma MethodLengths(m: Method)
    ensures 3 <= |MethodString(m)| <= 11
  {
  }

  lemma NameLengths(h: HeaderState)
    ensures |MatchedName(h)| <= 17
    ensures |MatchedName(MatchingConnection)| == 10 && |MatchedName(MatchingProxyConnection)| == 16
    ensures |MatchedName(MatchingContentLength)| == 14 && |MatchedName(MatchingTransferEncoding)| == 17
    ensures |MatchedName(MatchingUpgrade)| == 7 && |MatchedName(MatchingChunked)| == 7
    ensures |MatchedName(MatchingKeepAlive)| == 10 && |MatchedName(MatchingClose)| == 5
  {
  }

  lemma StartOk(p: Parser, ch: Byte)
    requires Busy(p) && GroupOf(p.state) == InStart
    ensures StepOk(StartSwitch(p, ch))
  {
    hide MethodString, Lower, FirstMethod, MethodByte;
    if p.state == ReqMethod {
      MethodOk(p, ch);
    } else {
      forall m: Method ensures 3 <= |MethodString(m)| <= 11 { MethodLengths(m); }
    }
  }

  lemma MethodOk(p: Parser, ch: Byte)
    requires Busy(p) && p.state == ReqMethod
    ensures StepOk(MethodByte(p, ch))
  {
    MethodLengths(p.verb);
    OtherLengths(p.verb, p.index, ch);
    hide MethodString, OtherMethod;
    var q := MethodByte(p, ch).p;
    if MethodByte(p, ch).next == Done { MethodKeepsCore(p, q); }
    hide Core, AtRest;
  }

  lemma OtherLengths(m: Method, i: nat, ch: Byte)
    requires i <= |MethodString(m)|
    ensures var o := OtherMethod(m, i, ch); o.Some? ==> i + 1 <= |MethodString(o.value)|
  {
    MethodLengths(m);
    MethodLengths(PROPPATCH);
    var o := OtherMethod(m, i, ch);
    if o.Some? { MethodLengths(o.value); }
    assert |MethodString(PROPPATCH)| == 9;
    hide MethodString;
  }

  lemma MethodKeepsCore(p: Parser, q: Parser)
    requires Core(p) && p.state == ReqMethod && 3 <= |MethodString(p.verb)| <= 11
    requires q == p.(state := q.state, verb := q.verb, index := p.index + 1)
    requires q.state == ReqSpacesBeforeUrl || (q.state == ReqMethod && p.index + 1 <= |MethodString(q.verb)|)
    ensures AtRest(q)
  {
    hide MethodString;
  }

  /** States about which the invariant says nothing more. */
  predicate Loose(s: State) {
    UrlState(s) || GroupOf(s) == InResponse || GroupOf(s) == InRequest
    || s == ReqSpacesBeforeUrl || s == HeaderFieldStart || s == HeaderAlmostDone || s == Dead
  }

  lemma KeepsCore(p: Parser, q: Parser)
    requires Core(p) && Loose(q.state) && q == p.(state := q.state, major := q.major, minor := q.minor, status := q.status)
    requires q.major <= 999 && q.minor <= 999 && q.status <= 999
    ensures AtRest(q)
  {
  }

  lemma ResponseOk(p: Parser, ch: Byte)
    requires Busy(p) && GroupOf(p.state) == InResponse
    ensures StepOk(ResponseSwitch(p, ch))
  {
    var q := ResponseSwitch(p, ch).p;
    Small(p);
    if ResponseSwitch(p, ch).next == Done {
      hide Core;
      KeepsCore(p, q);
    }
    hide Core, AtRest;
  }

  lemma RequestOk(p: Parser, ch: Byte)
    requires Busy(p) && GroupOf(p.state) == InRequest
    ensures StepOk(RequestSwitch(p, ch))
  {
    var q := RequestSwitch(p, ch).p;
    Small(p);
    if RequestSwitch(p, ch).next == Done {
      hide Core;
      KeepsCore(p, q);
    }
    hide Core, AtRest;
  }

  lemma UrlStates(s: State, ch: Byte)
    ensures ParseUrlChar(s, ch) == Dead || UrlState(ParseUrlChar(s, ch))
  {
    hide IsUserinfoChar, IsUrlChar, IsAlpha;
  }

  lemma UrlOk(p: Parser, ch: Byte)
    requires Busy(p) && GroupOf(p.state) == InUrl
    ensures StepOk(UrlSwitch(p, ch))
  {
    hide UrlByte, Core;
    var q := if p.verb == CONNECT then p.(state := ReqServerStart) else p;
    Small(p);
    StillCore(p, ReqServerStart);
    UrlByteOk(p, ch, []);
    UrlByteOk(q, ch, [Open(Url)]);
    var o := UrlSwitch(p, ch);
    if o.next == Done && Loose(o.p.state) && o.p.minor <= 999 && o.p.major <= 999 && o.p.status <= 999 {
      if o.p == p.(state := o.p.state, major := o.p.major, minor := o.p.minor) { KeepsCore(p, o.p); }
    }
  }

  lemma StillCore(p: Parser, s: State)
    requires Core(p) && Loose(s)
    ensures Core(p.(state := s))
  {
  }

  lemma UrlByteOk(p: Parser, ch: Byte, acts: seq<Act>)
    requires Core(p)
    ensures StepOk(UrlByte(p, ch, acts))
  {
    hide ParseUrlChar;
    UrlStates(p.state, ch);
  }

  lemma Small(p: Parser)
    requires Core(p)
    ensures p.major <= 999 && p.minor <= 999 && p.status <= 999
  {
  }

  lemma MatchOk(p: Parser, c: Byte)
    requires p.index + 1 < |MatchedName(p.header)|
    ensures var q := MatchByte(p, c);
            q == p.(index := q.index, header := q.header) && q.index == p.index + 1 <= 16
            && (q.header == General || q.header == AfterMatch(p.header)
                || (q.header == p.header && q.index + 1 < |MatchedName(q.header)|))
  {
    NameLengths(p.header);
    hide MatchedName, AfterMatch;
  }

  lemma FieldByteOk(p: Parser, ch: Byte, c: Byte)
    requires FieldOk(p.header, p.index) && p.index <= 20
    ensures var q := FieldByte(p, ch, c);
            q.Some? && q.value == p.(index := q.value.index, header := q.value.header)
            && q.value.index <= 20 && FieldOk(q.value.header, q.value.index)
  {
    NameLengths(p.header);
    if p.index + 1 < |MatchedName(p.header)| { MatchOk(p, c); }
    hide MatchedName, MatchByte;
  }

  lemma FieldSwitchOk(p: Parser, ch: Byte)
    requires Busy(p) && (p.state == HeaderFieldStart || p.state == HeaderField)
    ensures StepOk(FieldSwitch(p, ch))
  {
    hide MatchedName, FieldByte, TokenOf;
    NameLengths(p.header);
    if p.state == HeaderField { FieldByteOk(p, ch, TokenOf(ch)); }
  }

  lemma ValueOkAfter(p: Parser, ch: Byte)
    requires Busy(p) && p.state == HeaderValue
    ensures StepOk(ValueByte(p, ch))
  {
    hide MatchedName, MatchByte, Lower;
    NameLengths(p.header);
    if p.index + 1 < |MatchedName(p.header)| { MatchOk(p, Lower(ch)); }
  }

  lemma ValueStartOk(p: Parser, ch: Byte)
    requires Busy(p) && p.state == HeaderValueStart
    ensures StepOk(ValueStart(p, ch))
  {
    hide MatchedName, Lower;
    NameLengths(p.header);
  }

  lemma HeaderOk(p: Parser, ch: Byte)
    requires Busy(p) && GroupOf(p.state) == InHeader
    ensures StepOk(HeaderSwitch(p, ch))
  {
    hide FieldSwitch, ValueStart, ValueByte, FieldOk, ValueOk;
    match p.state
    case HeaderValueStart => ValueStartOk(p, ch);
    case HeaderValue => ValueOkAfter(p, ch);
    case HeaderAlmostDone =>
    case HeaderValueLws =>
    case _ => FieldSwitchOk(p, ch);
  }

  lemma EndOk(p: Parser, ch: Byte, skip: Answer)
    requires Busy(p) && GroupOf(p.state) == AtEnd
    ensures StepOk(EndSwitch(p, ch, skip))
  {
    hide ShouldKeepAlive, MessageNeedsEof;
  }

  lemma ChunkOk(p: Parser, ch: Byte)
    requires Busy(p) && GroupOf(p.state) == InChunk
    ensures StepOk(ChunkSwitch(p, ch))
  {
    hide Unhex;
  }

  lemma BodyOk(p: Parser, ch: Byte)
    requires Busy(p) && GroupOf(p.state) == InBody
    ensures StepOk(BodySwitch(p, ch))
  {
    hide ShouldKeepAlive, MessageNeedsEof;
  }

  lemma SwitchOk(p: Parser, ch: Byte, skip: Answer)
    requires Busy(p)
    ensures StepOk(Switch(p, ch, skip))
  {
    hide StartSwitch, ResponseSwitch, RequestSwitch, UrlSwitch, HeaderSwitch, EndSwitch, ChunkSwitch, BodySwitch, Core, StepOk;
    match GroupOf(p.state)
    case InStart => StartOk(p, ch);
    case InResponse => ResponseOk(p, ch);
    case InRequest => RequestOk(p, ch);
    case InUrl => UrlOk(p, ch);
    case InHeader => HeaderOk(p, ch);
    case AtEnd => EndOk(p, ch, skip);
    case InChunk => ChunkOk(p, ch);
    case InBody => BodyOk(p, ch);
  }

  lemma {:induction false} ExecuteOk(p: Parser, ch: Byte, skip: Answer)
    requires Busy(p)
    ensures var r := Execute(p, ch, skip); !r.status.Crashed? && (r.status == Running || r.status == Left ==> AtRest(r.p))
    decreases Rank(p.state)
  {
    hide Switch, Core, Lead, Trail, ActEvents;
    SwitchOk(p, ch, skip);
    AgainDescends(p, ch, skip);
    var o := Switch(p, ch, skip);
    if o.next == Again { ExecuteOk(o.p, ch, skip); }
  }

  lemma OneByteOk(p: Parser, ch: Byte, skip: Answer)
    requires AtRest(p)
    ensures var r := OneByte(p, ch, skip); !r.status.Crashed? && (r.status == Running || r.status == Left ==> AtRest(r.p))
  {
    hide Execute;
    var q := if ParsingHeader(p.state) then p.(nread := p.nread + 1) else p;
    if q.nread <= HTTP_MAX_HEADER_SIZE { ExecuteOk(q, ch, skip); }
  }

  /** No assertion of the machine can fail: on any input, from a fresh parser or between
      calls, the machine never gets stuck, and ends in a proper state. */
  lemma {:induction false} NeverCrashes(p: Parser, data: seq<Byte>, skip: Answer)
    requires AtRest(p)
    ensures var r := Feed(p, data, skip); !r.status.Crashed? && (r.status == Running || r.status == Left ==> AtRest(r.p))
  {
    hide OneByte;
    if data != [] {
      NeverCrashes(p, data[..|data| - 1], skip);
      var r := Feed(p, data[..|data| - 1], skip);
      if r.status == Running { OneByteOk(r.p, data[|data| - 1], skip); }
    }
  }
}
