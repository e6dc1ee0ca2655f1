/** Whole messages as they are sent: start line, header lines and body, and what the parser
    reports for them. */
module HttpWhole {
  import opened Common
  import opened HttpSwitch
  import opened HttpRun
  import opened HttpInvariant
  import opened HttpExecute
  import opened HttpMessages
  import opened HttpHeaders
  import opened HttpUrls
  import opened HttpStartLines

  // ---------- One header line ----------

  lemma SameBoth(a: seq<Event>, a': seq<Event>, b: seq<Event>, b': seq<Event>)
    requires Same(a, a') && Same(b, b')
    ensures Same(a + b, a' + b')
  {
    hide Same, Merge;
    SameThen(a, a', b);
    SameAfter(a', b, b');
    SameTrans(a + b, a' + b, a' + b');
  }

  /** The name and the colon. */
  lemma NameAndColon(p: Parser, name: seq<Byte>, skip: Answer)
    requires p.state == HeaderFieldStart && IsToken(name) && p.nread + |name| < HTTP_MAX_HEADER_SIZE
    ensures var r := Feed(p, name + [COLON], skip);
            && r == Run(p.(state := HeaderValueStart, nread := p.nread + |name| + 1, index := r.p.index, header := r.p.header), r.events, Running, |name| + 1)
            && Same(r.events, [Data(Field, name)])
            && (r.p.header == ContentLength <==> Reads(name, "content-length"))
            && (r.p.header == TransferEncoding <==> Reads(name, "transfer-encoding"))
            && (r.p.header == Connection <==> Reads(name, "connection") || Reads(name, "proxy-connection"))
            && (r.p.header == Upgrade <==> Reads(name, "upgrade"))
  {
    hide Feed, OneByte, Same, Merge, Reads, IsToken;
    NameIsRecognised(p, name, skip);
    var r := Feed(p, name, skip);
    assert (name + [COLON])[..|name|] == name;
    FeedLast(p, name + [COLON], skip);
    NameEnd(r.p, skip);
    TokenAgain(r.events, Field, name);
  }

  lemma NameAndPad(p: Parser, h: Header, skip: Answer)
    requires p.state == HeaderFieldStart && Sendable(h) && p.nread + |h.name| + 1 + |h.pad| <= HTTP_MAX_HEADER_SIZE
    ensures var n := |h.name| + 1 + |h.pad|;
            var r := Feed(p, h.name + [COLON] + h.pad, skip);
            && r == Run(p.(state := HeaderValueStart, nread := p.nread + n, index := r.p.index, header := r.p.header), r.events, Running, n)
            && Same(r.events, [Data(Field, h.name)])
            && (r.p.header == ContentLength <==> Reads(h.name, "content-length"))
            && (r.p.header == TransferEncoding <==> Reads(h.name, "transfer-encoding"))
            && (r.p.header == Connection <==> AboutConnection(h))
            && (r.p.header == Upgrade <==> Reads(h.name, "upgrade"))
  {
    hide Feed, OneByte, Same, Merge, Reads, Trimmed, LengthOk, IsToken, IsLine;
    NameAndColon(p, h.name, skip);
    var r := Feed(p, h.name + [COLON], skip);
    PadRun(r.p, h.pad, skip);
    FeedSplit(p, h.name + [COLON], h.pad, skip);
    assert r.events + [] == r.events;
  }

  /** All of a line but its last byte. */
  lemma LineText(p: Parser, h: Header, skip: Answer)
    requires p.state == HeaderFieldStart && Sendable(h) && p.nread + |HeaderLine(h)| <= HTTP_MAX_HEADER_SIZE
    ensures var n := |HeaderLine(h)| - 1;
            var r := Feed(p, h.name + [COLON] + h.pad + (h.value + [CR]), skip);
            && r == Run(p.(state := HeaderAlmostDone, nread := p.nread + n, index := r.p.index, header := r.p.header,
                           flags := p.flags.(upgrade := p.flags.upgrade || SaysUpgrade(h)), contentLength := LengthAfter(p.contentLength, h)), r.events, Running, n)
            && Same(r.events, [Data(Field, h.name), Data(Value, h.value)])
            && (r.p.header == Chunked <==> SaysChunked(h)) && (r.p.header == KeepAlive <==> SaysKeepAlive(h)) && (r.p.header == Close <==> SaysClose(h))
  {
    hide Feed, OneByte, Same, Merge, Reads, Trimmed, LengthOk, IsToken, IsLine, DecimalValue;
    NameAndPad(p, h, skip);
    var r := Feed(p, h.name + [COLON] + h.pad, skip);
    ValueIsRecognised(r.p, h.value, skip);
    var v := Feed(r.p, h.value + [CR], skip);
    FeedSplit(p, h.name + [COLON] + h.pad, h.value + [CR], skip);
    SameBoth(r.events, [Data(Field, h.name)], v.events, [Data(Value, h.value)]);
    assert [Data(Field, h.name)] + [Data(Value, h.value)] == [Data(Field, h.name), Data(Value, h.value)];
  }

  /** A header line: name and value are reported exactly, and what they say is kept. */
  lemma LineIsRead(p: Parser, h: Header, skip: Answer)
    requires p.state == HeaderFieldStart && Sendable(h) && p.nread + |HeaderLine(h)| <= HTTP_MAX_HEADER_SIZE
    ensures var n := |HeaderLine(h)|;
            var r := Feed(p, HeaderLine(h), skip);
            && r == Run(p.(state := HeaderValueLws, nread := p.nread + n, index := r.p.index, header := r.p.header,
                           flags := FlagsAfter(p.flags, h), contentLength := LengthAfter(p.contentLength, h)), r.events, Running, n)
            && Same(r.events, [Data(Field, h.name), Data(Value, h.value)])
  {
    hide Feed, OneByte, Same, Merge, Sendable, LengthAfter, SaysChunked, SaysKeepAlive, SaysClose, SaysUpgrade;
    LineText(p, h, skip);
    var text := h.name + [COLON] + h.pad + (h.value + [CR]);
    var r := Feed(p, text, skip);
    assert HeaderLine(h) == text + [LF] && (text + [LF])[..|text|] == text;
    FeedLast(p, HeaderLine(h), skip);
    LineEnd(r.p, skip);
    assert r.events + [] == r.events;
  }

  // ---------- All header lines ----------

  function HeaderLines(hs: seq<Header>): seq<Byte> {
    if hs == [] then [] else HeaderLines(hs[..|hs| - 1]) + HeaderLine(hs[|hs| - 1])
  }

  function HeaderEvents(hs: seq<Header>): seq<Event> {
    if hs == [] then [] else HeaderEvents(hs[..|hs| - 1]) + [Data(Field, hs[|hs| - 1].name), Data(Value, hs[|hs| - 1].value)]
  }

  predicate AllSendable(hs: seq<Header>) { forall i :: 0 <= i < |hs| ==> Sendable(hs[i]) }

  /** What the headers say together. */
  function SaidFlags(hs: seq<Header>): Flags {
    Flags(exists i :: 0 <= i < |hs| && SaysChunked(hs[i]), exists i :: 0 <= i < |hs| && SaysKeepAlive(hs[i]),
          exists i :: 0 <= i < |hs| && SaysClose(hs[i]), false, exists i :: 0 <= i < |hs| && SaysUpgrade(hs[i]), false)
  }

  /** The length sent last, or 2^64 - 1 for none. */
  function SaidLength(hs: seq<Header>): nat
    requires AllSendable(hs)
  {
    if hs == [] then ULLONG_MAX else LengthAfter(SaidLength(hs[..|hs| - 1]), hs[|hs| - 1])
  }

  lemma SaidNext(hs: seq<Header>)
    requires hs != []
    ensures SaidFlags(hs) == FlagsAfter(SaidFlags(hs[..|hs| - 1]), hs[|hs| - 1])
  {
    hide SaysChunked, SaysKeepAlive, SaysClose, SaysUpgrade;
    var front := hs[..|hs| - 1];
    assert forall i :: 0 <= i < |front| ==> front[i] == hs[i];
    var n := |hs| - 1;
    if SaysChunked(hs[n]) { assert SaidFlags(hs).chunked; }
    if SaysKeepAlive(hs[n]) { assert SaidFlags(hs).keepAlive; }
    if SaysClose(hs[n]) { assert SaidFlags(hs).close; }
    if SaysUpgrade(hs[n]) { assert SaidFlags(hs).upgrade; }
  }

  /** Behind a header line the next one starts as the first one does. */
  lemma AnotherByte(p: Parser, b: Byte, skip: Answer)
    requires p.state == HeaderValueLws && !Blank(b) && p.nread < HTTP_MAX_HEADER_SIZE
    ensures OneByte(p, b, skip) == OneByte(p.(state := HeaderFieldStart), b, skip)
  {
    hide Switch, HeaderSwitch, Execute;
    var q := Counted(p);
    SwitchLate(q, b, skip);
    AnotherSwitch(q, b);
    AnotherRun(q, b, skip);
  }

  lemma AnotherSwitch(p: Parser, b: Byte)
    requires p.state == HeaderValueLws && !Blank(b)
    ensures HeaderSwitch(p, b) == Out(p.(state := HeaderFieldStart), [], Again)
  {
    hide FieldSwitch, ValueStart, ValueByte;
  }

  lemma AnotherRun(p: Parser, b: Byte, skip: Answer)
    requires p.state == HeaderValueLws && Switch(p, b, skip) == Out(p.(state := HeaderFieldStart), [], Again)
    ensures Execute(p, b, skip) == Execute(p.(state := HeaderFieldStart), b, skip)
  {
    hide Switch;
    var r := Execute(p.(state := HeaderFieldStart), b, skip);
    assert Lead(p.state) + ActEvents([], b) + r.events == r.events;
  }

  lemma AnotherFeed(p: Parser, data: seq<Byte>, skip: Answer)
    requires p.state == HeaderValueLws && data != [] && !Blank(data[0]) && p.nread < HTTP_MAX_HEADER_SIZE
    ensures Feed(p, data, skip) == Feed(p.(state := HeaderFieldStart), data, skip)
  {
    hide Feed, OneByte;
    var q := p.(state := HeaderFieldStart);
    assert data == [data[0]] + data[1..];
    FeedSplit(p, [data[0]], data[1..], skip);
    FeedSplit(q, [data[0]], data[1..], skip);
    FeedOne(p, data[0], skip);
    FeedOne(q, data[0], skip);
    AnotherByte(p, data[0], skip);
  }

  lemma LineStart(h: Header)
    requires Sendable(h)
    ensures |HeaderLine(h)| > 0 && !Blank(HeaderLine(h)[0])
  {
    assert TokenByte(h.name[0]);
  }

  /** Where a header line or the end of the headers is expected. */
  predicate AtHeader(p: Parser) { p.state == HeaderFieldStart || p.state == HeaderValueLws }

  lemma {:induction false} HeadersRun(p: Parser, hs: seq<Header>, skip: Answer)
    requires p.state == HeaderFieldStart && p.flags == NO_FLAGS && p.contentLength == ULLONG_MAX
    requires AllSendable(hs) && p.nread + |HeaderLines(hs)| <= HTTP_MAX_HEADER_SIZE
    ensures var n := |HeaderLines(hs)|;
            var r := Feed(p, HeaderLines(hs), skip);
            && r == Run(p.(state := r.p.state, nread := p.nread + n, index := r.p.index, header := r.p.header,
                           flags := SaidFlags(hs), contentLength := SaidLength(hs)), r.events, Running, n)
            && AtHeader(r.p) && Same(r.events, HeaderEvents(hs))
  {
    hide Feed, OneByte, Same, Merge, Sendable, LengthAfter, FlagsAfter, HeaderLine, SaidFlags;
    if hs == [] {
      NoBytes(p, skip);
      NothingSaid();
      SameSelf([]);
    } else {
      var front, h := hs[..|hs| - 1], hs[|hs| - 1];
      HeadersRun(p, front, skip);
      SaidNext(hs);
      var r := Feed(p, HeaderLines(front), skip);
      LineStart(h);
      LineIsRead(r.p.(state := HeaderFieldStart), h, skip);
      if r.p.state == HeaderValueLws { AnotherFeed(r.p, HeaderLine(h), skip); }
      assert r.p.state == HeaderFieldStart ==> r.p.(state := HeaderFieldStart) == r.p;
      FeedSplit(p, HeaderLines(front), HeaderLine(h), skip);
      SameBoth(r.events, HeaderEvents(front), Feed(r.p, HeaderLine(h), skip).events, [Data(Field, h.name), Data(Value, h.value)]);
    }
  }

  lemma NothingSaid()
    ensures SaidFlags([]) == NO_FLAGS
  {
  }

  // ---------- What follows the headers ----------

  /** How a message goes on behind its headers, by section 4.4 of RFC 2616; a length beside
      the chunked coding is ignored. */
  datatype Framing = NoBody | InChunks | OfLength(n: nat) | UntilClose

  function FramingOf(q: Parser): Framing {
    if q.flags.chunked then InChunks
    else if q.contentLength == 0 then NoBody
    else if q.contentLength != ULLONG_MAX then OfLength(q.contentLength)
    else if q.kind == Request || 100 <= q.status < 200 || q.status == 204 || q.status == 304 then NoBody
    else UntilClose
  }

  /** The parser behind a complete message: with both version numbers positive, as in HTTP 1.1,
      it goes on unless told to close, otherwise only if told to, and never behind a body that
      the close of the connection would have to end. */
  function Finished(f: Parser): Parser {
    var on := (if f.major > 0 && f.minor > 0 then !f.flags.close else f.flags.keepAlive)
              && (f.kind == Request || f.flags.skipBody || FramingOf(f) != UntilClose);
    f.(nread := 0, state := if !on then Dead else if f.kind == Request then StartReq else StartRes)
  }

  lemma FinishedIs(f: Parser)
    ensures NewMessage(f.(nread := 0)) == Finished(f)
    ensures f.kind != Request && !f.flags.skipBody ==> (MessageNeedsEof(f) <==> FramingOf(f) == UntilClose)
    ensures f.kind == Request ==> !MessageNeedsEof(f)
  {
  }

  /** The message is over with its headers: skip is what on_headers_complete answers. */
  predicate OverAtOnce(q: Parser, skip: Answer) { q.upgrade || skip(q) || FramingOf(q) == NoBody }

  /** The message as on_headers_complete may change it. */
  function Answered(q: Parser, skip: Answer): Parser {
    if skip(q) then q.(flags := q.flags.(skipBody := true)) else q
  }

  function BodyState(b: Framing): State
    requires b != NoBody
  {
    match b case InChunks => ChunkSizeStart case OfLength(_) => BodyIdentity case UntilClose => BodyIdentityEof
  }

  /** What the end of the headers does to a message that is seen as q. */
  function HeadersRead(q: Parser, skip: Answer): Run {
    var r := AfterHeaders(q, skip);
    r.(events := [Signal(HeadersComplete)] + r.events)
  }

  function AfterHeaders(q: Parser, skip: Answer): Run {
    var f := Answered(q, skip);
    if OverAtOnce(q, skip) then Run(Finished(f), [Signal(MessageComplete)], if q.upgrade then Left else Running, 1)
    else Run(f.(nread := 0, state := BodyState(FramingOf(q))), [], Running, 1)
  }

  lemma DoneSwitched(q: Parser, skip: Answer)
    requires q.state == HeadersDone && !q.flags.skipBody
    ensures var f := Answered(q, skip);
            EndSwitch(f, LF, skip) ==
            if OverAtOnce(q, skip) then Out(Finished(f), [Notify(MessageComplete)], if q.upgrade then Leave else Done)
            else Out(f.(nread := 0, state := BodyState(FramingOf(q))), [], Done)
  {
    var f := Answered(q, skip);
    FinishedIs(f);
    FinishedIs(f.(nread := 0));
    hide NewMessage, MessageNeedsEof, Finished, ShouldKeepAlive;
  }

  lemma AlmostSwitched(p: Parser, skip: Answer)
    requires p.state == HeadersAlmostDone && !p.flags.trailing
    ensures var q := p.(state := HeadersDone, upgrade := p.flags.upgrade || p.verb == CONNECT);
            EndSwitch(p, LF, skip) == Out(Answered(q, skip), [Notify(HeadersComplete)], Again)
  {
    hide NewMessage, MessageNeedsEof, ShouldKeepAlive;
  }

  lemma FinishedQuiet(f: Parser)
    ensures TokenState(Finished(f).state) == None
  {
    hide FramingOf;
  }

  lemma BodyStateQuiet(b: Framing)
    requires b != NoBody
    ensures TokenState(BodyState(b)) == None
  {
  }

  lemma DoneExecuted(q: Parser, skip: Answer)
    requires q.state == HeadersDone && !q.flags.skipBody
    ensures Execute(Answered(q, skip), LF, skip) == AfterHeaders(q, skip)
  {
    hide EndSwitch, Switch, Finished, FramingOf, BodyState, ActEvents, Execute;
    var f := Answered(q, skip);
    DoneSwitched(q, skip);
    SwitchLate(f, LF, skip);
    if !OverAtOnce(q, skip) {
      OnToBody(q, skip);
    } else if q.upgrade {
      LeftAtOnce(f, Finished(f), skip);
    } else {
      OnToNext(f, skip);
    }
  }

  lemma OnToNext(f: Parser, skip: Answer)
    requires f.state == HeadersDone && Switch(f, LF, skip) == Out(Finished(f), [Notify(MessageComplete)], Done)
    ensures Execute(f, LF, skip) == Run(Finished(f), [Signal(MessageComplete)], Running, 1)
  {
    hide Switch, ActEvents, Execute, Finished;
    NotifyEvent(MessageComplete, LF);
    FinishedQuiet(f);
    ExecutedAtOnce(f, LF, skip, Finished(f), [Notify(MessageComplete)]);
  }

  lemma OnToBody(q: Parser, skip: Answer)
    requires FramingOf(q) != NoBody && q.state == HeadersDone
    requires var f := Answered(q, skip); Switch(f, LF, skip) == Out(f.(nread := 0, state := BodyState(FramingOf(q))), [], Done)
    ensures var f := Answered(q, skip); Execute(f, LF, skip) == Run(f.(nread := 0, state := BodyState(FramingOf(q))), [], Running, 1)
  {
    hide Switch, Execute, FramingOf, BodyState;
    var f := Answered(q, skip);
    BodyStateQuiet(FramingOf(q));
    ExecutedAtOnce(f, LF, skip, f.(nread := 0, state := BodyState(FramingOf(q))), []);
  }

  lemma LeftAtOnce(f: Parser, g: Parser, skip: Answer)
    requires f.state == HeadersDone && Switch(f, LF, skip) == Out(g, [Notify(MessageComplete)], Leave)
    ensures Execute(f, LF, skip) == Run(g, [Signal(MessageComplete)], Left, 1)
  {
    hide Switch, ActEvents;
    NotifyEvent(MessageComplete, LF);
    assert Lead(f.state) + [Signal(MessageComplete)] == [Signal(MessageComplete)];
  }

  /** The message as on_headers_complete sees it. */
  function Seen(p: Parser): Parser {
    p.(state := HeadersDone, nread := p.nread + 1, upgrade := p.flags.upgrade || p.verb == CONNECT)
  }

  lemma LastLf(p: Parser, skip: Answer)
    requires p.state == HeadersAlmostDone && !p.flags.trailing && !p.flags.skipBody && p.nread < HTTP_MAX_HEADER_SIZE
    ensures OneByte(p, LF, skip) == HeadersRead(Seen(p), skip)
  {
    hide EndSwitch, Switch, Answered, Execute, AfterHeaders;
    var p' := p.(nread := p.nread + 1);
    AlmostSwitched(p', skip);
    SwitchLate(p', LF, skip);
    DoneExecuted(Seen(p), skip);
    AlmostExecuted(p', Answered(Seen(p), skip), AfterHeaders(Seen(p), skip), skip);
  }

  lemma AlmostExecuted(p: Parser, f: Parser, r: Run, skip: Answer)
    requires p.state == HeadersAlmostDone && Switch(p, LF, skip) == Out(f, [Notify(HeadersComplete)], Again)
    requires Execute(f, LF, skip) == r
    ensures Execute(p, LF, skip) == r.(events := [Signal(HeadersComplete)] + r.events)
  {
    hide Switch, ActEvents;
    NotifyEvent(HeadersComplete, LF);
    assert Lead(p.state) + [Signal(HeadersComplete)] == [Signal(HeadersComplete)];
  }

  lemma LastCr(p: Parser, skip: Answer)
    requires AtHeader(p) && p.nread < HTTP_MAX_HEADER_SIZE
    ensures OneByte(p, CR, skip) == Run(p.(state := HeadersAlmostDone, nread := p.nread + 1), [], Running, 1)
  {
    hide OneByte, Execute, Switch, HeaderSwitch;
    var q := p.(state := HeaderFieldStart);
    if p.state == HeaderValueLws { AnotherByte(p, CR, skip); } else { assert q == p; }
    SwitchLate(Counted(q), CR, skip);
    CrSwitched(Counted(q));
    Quiet(q, CR, skip, q.(state := HeadersAlmostDone, nread := p.nread + 1));
  }

  lemma CrSwitched(p: Parser)
    requires p.state == HeaderFieldStart
    ensures HeaderSwitch(p, CR) == Out(p.(state := HeadersAlmostDone), [], Done)
  {
    hide TokenOf, FieldByte, ValueStart, ValueByte;
  }

  /** The empty line. */
  lemma HeadersEnd(p: Parser, skip: Answer)
    requires AtHeader(p) && !p.flags.trailing && !p.flags.skipBody && p.nread + 2 <= HTTP_MAX_HEADER_SIZE
    ensures var r := HeadersRead(Seen(p.(nread := p.nread + 1)), skip); Feed(p, CRLF, skip) == r.(used := 2)
  {
    hide Feed, OneByte, HeadersRead;
    var p1 := p.(state := HeadersAlmostDone, nread := p.nread + 1);
    LastCr(p, skip);
    LastLf(p1, skip);
    assert Seen(p1) == Seen(p.(nread := p.nread + 1));
    hide Seen;
    FeedTwo(p, CR, LF, skip);
    OneUsed(Seen(p1), skip);
  }

  lemma OneUsed(q: Parser, skip: Answer)
    ensures HeadersRead(q, skip).used == 1 && [] + HeadersRead(q, skip).events == HeadersRead(q, skip).events
  {
    hide Finished, FramingOf, BodyState, OverAtOnce;
  }

  // ---------- Whole messages ----------

  /** What is reported up to the end of the headers. */
  function HeadEvents(start: seq<Event>, hs: seq<Header>, q: Parser, skip: Answer): seq<Event> {
    start + HeaderEvents(hs) + [Signal(HeadersComplete)] + if OverAtOnce(q, skip) then [Signal(MessageComplete)] else []
  }

  /** The parser behind the start line. */
  predicate BehindStart(p: Parser) { p.state == HeaderFieldStart && p.flags == NO_FLAGS && p.contentLength == ULLONG_MAX }

  /** Headers and the empty line behind a start line; q is the message as on_headers_complete
      sees it. */
  lemma HeadIsRead(p: Parser, start: seq<Byte>, line: seq<Event>, hs: seq<Header>, skip: Answer) returns (q: Parser)
    requires var r := Feed(p, start, skip); r.status == Running && r.used == |start| && BehindStart(r.p) && Same(r.events, line)
    requires AllSendable(hs) && Feed(p, start, skip).p.nread + |HeaderLines(hs)| + 2 <= HTTP_MAX_HEADER_SIZE
    ensures var b := Feed(p, start, skip).p;
            q == b.(state := HeadersDone, index := q.index, header := q.header, nread := b.nread + |HeaderLines(hs)| + 2,
                    flags := SaidFlags(hs), contentLength := SaidLength(hs), upgrade := SaidFlags(hs).upgrade || b.verb == CONNECT)
    ensures var r := Feed(p, start + HeaderLines(hs) + CRLF, skip);
            r == HeadersRead(q, skip).(events := r.events, used := |start + HeaderLines(hs) + CRLF|) && Same(r.events, HeadEvents(line, hs, q, skip))
  {
    hide Feed, OneByte, Same, Merge, HeaderLines, HeaderEvents, SaidFlags, SaidLength, AllSendable, HeadersRead;
    var b := Feed(p, start, skip).p;
    HeadersRun(b, hs, skip);
    FeedSplit(p, start, HeaderLines(hs), skip);
    var h := Feed(b, HeaderLines(hs), skip);
    FlagsAreFresh(hs);
    HeadersEnd(h.p, skip);
    q := Seen(h.p.(nread := h.p.nread + 1));
    FeedSplit(p, start + HeaderLines(hs), CRLF, skip);
    HeadEventsAre(Feed(p, start, skip).events, line, h.events, hs, q, skip);
  }

  lemma FlagsAreFresh(hs: seq<Header>)
    ensures !SaidFlags(hs).trailing && !SaidFlags(hs).skipBody
  {
    hide SaysChunked, SaysKeepAlive, SaysClose, SaysUpgrade;
  }

  lemma HeadEventsAre(a: seq<Event>, line: seq<Event>, b: seq<Event>, hs: seq<Header>, q: Parser, skip: Answer)
    requires Same(a, line) && Same(b, HeaderEvents(hs))
    ensures Same(a + b + HeadersRead(q, skip).events, HeadEvents(line, hs, q, skip))
  {
    hide Same, Merge, HeaderEvents, Finished, FramingOf, BodyState, Answered;
    SameBoth(a, line, b, HeaderEvents(hs));
    var e := HeadersRead(q, skip).events;
    SameThen(a + b, line + HeaderEvents(hs), e);
    var tail := if OverAtOnce(q, skip) then [Signal(MessageComplete)] else [];
    assert e == [Signal(HeadersComplete)] + tail;
    assert line + HeaderEvents(hs) + e == line + HeaderEvents(hs) + [Signal(HeadersComplete)] + tail;
  }

  function RequestText(l: RequestLine, hs: seq<Header>): seq<Byte>
    requires forall i :: 0 <= i < |l.name| ==> (l.name[i] as int) < 256
  {
    l.Print() + HeaderLines(hs) + CRLF
  }

  /** A request, however it is cased and padded, up to the end of its headers: the method is
      recognised; URL, names and values are reported exactly; and the headers decide whether
      it is over, whether its body is chunked, or of which length it is. */
  lemma RequestIsRead(p: Parser, l: RequestLine, hs: seq<Header>, skip: Answer) returns (q: Parser)
    requires p.state == StartReq && l.Ok() && AllSendable(hs) && p.nread + |RequestText(l, hs)| <= HTTP_MAX_HEADER_SIZE
    ensures q == p.(state := HeadersDone, index := q.index, header := q.header, nread := p.nread + |RequestText(l, hs)|,
                    verb := l.verb, major := DecimalValue(l.major), minor := DecimalValue(l.minor),
                    flags := SaidFlags(hs), contentLength := SaidLength(hs), upgrade := SaidFlags(hs).upgrade || l.verb == CONNECT)
    ensures var r := Feed(p, RequestText(l, hs), skip);
            && r == HeadersRead(q, skip).(events := r.events, used := |RequestText(l, hs)|)
            && Same(r.events, HeadEvents([Signal(MessageBegin), Data(Url, l.url)], hs, q, skip))
  {
    hide Feed, OneByte, Same, Merge, HeaderLines, HeadEvents, SaidFlags, SaidLength, AllSendable, HeadersRead, DecimalValue, RequestLine.Print, IsMethod, UrlOfRequest, UrlText, IsNum;
    RequestLineIsRead(p, l, skip);
    q := HeadIsRead(p, l.Print(), [Signal(MessageBegin), Data(Url, l.url)], hs, skip);
  }

  function ResponseText(l: StatusLine, hs: seq<Header>): seq<Byte> { l.Print() + HeaderLines(hs) + CRLF }

  /** A response up to the end of its headers. */
  lemma ResponseIsRead(p: Parser, l: StatusLine, hs: seq<Header>, skip: Answer) returns (q: Parser)
    requires p.state == StartRes && l.Ok() && AllSendable(hs) && p.nread + |ResponseText(l, hs)| <= HTTP_MAX_HEADER_SIZE
    ensures q == p.(state := HeadersDone, index := q.index, header := q.header, nread := p.nread + |ResponseText(l, hs)|,
                    major := DecimalValue(l.major), minor := DecimalValue(l.minor), status := DecimalValue(l.code),
                    flags := SaidFlags(hs), contentLength := SaidLength(hs), upgrade := SaidFlags(hs).upgrade || p.verb == CONNECT)
    ensures var r := Feed(p, ResponseText(l, hs), skip);
            && r == HeadersRead(q, skip).(events := r.events, used := |ResponseText(l, hs)|)
            && Same(r.events, HeadEvents([Signal(MessageBegin), Signal(StatusComplete)], hs, q, skip))
  {
    hide Feed, OneByte, Same, Merge, HeaderLines, HeadEvents, SaidFlags, SaidLength, AllSendable, HeadersRead, DecimalValue, StatusLine.Print, IsLine;
    StatusLineIsRead(p, l, skip);
    SameSelf([Signal(MessageBegin), Signal(StatusComplete)]);
    q := HeadIsRead(p, l.Print(), [Signal(MessageBegin), Signal(StatusComplete)], hs, skip);
  }

  // ---------- With their bodies ----------

  /** The parser where a body begins. */
  function AtBody(q: Parser): Parser
    requires FramingOf(q) != NoBody
  {
    q.(nread := 0, state := BodyState(FramingOf(q)))
  }

  /** The head of a message has been read, and a body follows. */
  predicate HeadDone(p: Parser, text: seq<Byte>, head: seq<Event>, q: Parser, skip: Answer) {
    var r := Feed(p, text, skip);
    !OverAtOnce(q, skip) && r == Run(AtBody(q), r.events, Running, |text|) && Same(r.events, head)
  }

  /** So it is with what RequestIsRead and ResponseIsRead say, if the message is not over. */
  lemma HeadIsDone(p: Parser, text: seq<Byte>, start: seq<Event>, hs: seq<Header>, q: Parser, skip: Answer)
    requires !OverAtOnce(q, skip)
    requires var r := Feed(p, text, skip);
             r == HeadersRead(q, skip).(events := r.events, used := |text|) && Same(r.events, HeadEvents(start, hs, q, skip))
    ensures HeadDone(p, text, start + HeaderEvents(hs) + [Signal(HeadersComplete)], q, skip)
  {
    hide Feed, Same, HeaderEvents, FramingOf, BodyState;
    var head := start + HeaderEvents(hs) + [Signal(HeadersComplete)];
    assert head + [] == head;
  }

  lemma BodyThen(p: Parser, text: seq<Byte>, head: seq<Event>, q: Parser, body: seq<Byte>, events: seq<Event>, skip: Answer)
    requires HeadDone(p, text, head, q, skip) && Same(Feed(AtBody(q), body, skip).events, events)
    ensures var r, b := Feed(p, text + body, skip), Feed(AtBody(q), body, skip);
            r == b.(events := r.events, used := |text| + b.used) && Same(r.events, head + events)
  {
    hide Feed, Same, OneByte, FramingOf, BodyState;
    FeedSplit(p, text, body, skip);
    SameBoth(Feed(p, text, skip).events, head, Feed(AtBody(q), body, skip).events, events);
  }

  lemma FinishedAs(f: Parser)
    ensures NewMessage(f) == Finished(f).(nread := f.nread) && Finished(f).nread == 0
  {
    FinishedIs(f);
  }

  /** A body of the length that the headers said: delivered exactly, and then the message is
      complete and the next one expected. */
  lemma BodyOfLength(p: Parser, text: seq<Byte>, head: seq<Event>, q: Parser, body: seq<Byte>, skip: Answer)
    requires AtRest(p) && HeadDone(p, text, head, q, skip) && FramingOf(q) == OfLength(|body|)
    ensures var r := Feed(p, text + body, skip);
            && r == Run(Finished(AtBody(q).(contentLength := 0)), r.events, Running, |text| + |body|)
            && Same(r.events, head + [Data(Body, body), Signal(MessageComplete)])
  {
    hide Feed, Same, OneByte, AtRest, NewMessage, Finished;
    NeverCrashes(p, text, skip);
    var b := AtBody(q);
    assert b.contentLength == |body|;
    BodyExact(b, body, skip);
    FinishedAs(b.(contentLength := 0));
    hide FramingOf, BodyState, OverAtOnce;
    BodyThen(p, text, head, q, body, [Data(Body, body), Signal(MessageComplete)], skip);
  }

  /** A chunked body: its data is delivered exactly, and then the message is complete. */
  lemma ChunkedBody(p: Parser, text: seq<Byte>, head: seq<Event>, q: Parser, chunks: seq<Piece>, skip: Answer)
    requires HeadDone(p, text, head, q, skip) && FramingOf(q) == InChunks && forall c :: c in chunks ==> PieceOk(c)
    ensures var r, body := Feed(p, text + (EncodePieces(chunks) + LAST_CHUNK), skip), PieceData(chunks);
            && r == Run(Finished(AtBody(q).(contentLength := 0, flags := q.flags.(trailing := true))).(nread := 2), r.events, Running, |text| + |EncodePieces(chunks)| + 5)
            && Same(r.events, head + (if body == [] then [] else [Data(Body, body)]) + [Signal(MessageComplete)])
  {
    hide Feed, Same, OneByte, PieceOk, NewMessage, Finished;
    var b, body := AtBody(q), PieceData(chunks);
    ChunksRoundTrip(b, chunks, skip);
    FinishedAs(b.(contentLength := 0, nread := 2, flags := b.flags.(trailing := true)));
    FinishedNread(b.(contentLength := 0, flags := b.flags.(trailing := true)));
    hide FramingOf, BodyState, OverAtOnce;
    var events := (if body == [] then [] else [Data(Body, body)]) + [Signal(MessageComplete)];
    BodyThen(p, text, head, q, EncodePieces(chunks) + LAST_CHUNK, events, skip);
    assert head + events == head + (if body == [] then [] else [Data(Body, body)]) + [Signal(MessageComplete)];
  }

  lemma FinishedNread(f: Parser)
    ensures Finished(f.(nread := 2)) == Finished(f)
  {
  }

  /** A body that only the close of the connection ends: all that comes is delivered. */
  lemma BodyUntilClose(p: Parser, text: seq<Byte>, head: seq<Event>, q: Parser, body: seq<Byte>, skip: Answer)
    requires AtRest(p) && HeadDone(p, text, head, q, skip) && FramingOf(q) == UntilClose && body != []
    ensures var r := Feed(p, text + body, skip);
            r == Run(AtBody(q), r.events, Running, |text| + |body|) && Same(r.events, head + [Data(Body, body)])
  {
    hide Feed, Same, OneByte, AtRest, BodyEvents, Merge;
    NeverCrashes(p, text, skip);
    var b := AtBody(q);
    RestInBody(b);
    BulkRun(b, body, skip);
    BodyMerge([], body);
    assert [] + BodyEvents(body) == BodyEvents(body) && [] + [Data(Body, body)] == [Data(Body, body)];
    hide FramingOf, BodyState, OverAtOnce;
    BodyThen(p, text, head, q, body, [Data(Body, body)], skip);
  }

  // ---------- One request, byte for byte ----------

  const POST_LINE := RequestLine(POST, "POST", ['/' as int], ['1' as int], ['1' as int])

  function LengthHeader(): Header { Header(Bytes("Content-Length"), [SPACE], ['5' as int]) }

  lemma PostLineOk()
    ensures POST_LINE.Ok() && POST_LINE.Print() == Bytes("POST / HTTP/1.1\r\n")
  {
    assert OriginForm(['/' as int]);
    OneMoreDigit([], '1' as int);
    assert [] + ['1' as int] == ['1' as int];
    var l := POST_LINE;
    assert l.Start() == Bytes("POST / ");
    assert l.Version() == Bytes("HTTP/1.1");
  }

  lemma LetterIsToken(b: Byte)
    requires Letter(b) || b == '-' as int
    ensures TokenByte(b)
  {
  }

  lemma LengthNameOk()
    ensures IsToken(Bytes("Content-Length")) && Reads(Bytes("Content-Length"), "content-length")
    ensures !Reads(Bytes("Content-Length"), "transfer-encoding") && !Reads(Bytes("Content-Length"), "connection")
    ensures !Reads(Bytes("Content-Length"), "proxy-connection") && !Reads(Bytes("Content-Length"), "upgrade")
  {
    hide TokenByte;
    var name := Bytes("Content-Length");
    assert forall i :: 0 <= i < |name| ==> Letter(name[i]) || name[i] == '-' as int;
    forall i | 0 <= i < |name| ensures TokenByte(name[i]) { LetterIsToken(name[i]); }
  }

  lemma LengthHeaderOk()
    ensures AllSendable([LengthHeader()]) && SaidLength([LengthHeader()]) == 5 && SaidFlags([LengthHeader()]) == NO_FLAGS
    ensures HeaderLines([LengthHeader()]) == Bytes("Content-Length: 5\r\n")
    ensures HeaderEvents([LengthHeader()]) == [Data(Field, Bytes("Content-Length")), Data(Value, ['5' as int])]
  {
    hide Reads, IsToken;
    var h := LengthHeader();
    LengthNameOk();
    FiveIsLength();
    hide Trimmed, DecimalValue, IsNum, LengthOk;
    assert [h][..0] == [];
    assert HeaderLine(h) == Bytes("Content-Length: 5\r\n");
    assert [] + HeaderLine(h) == HeaderLine(h);
  }

  lemma FiveIsLength()
    ensures Trimmed(['5' as int]) == ['5' as int] && LengthOk(['5' as int]) && DecimalValue(['5' as int]) == 5
    ensures IsLine(['5' as int])
  {
    TrimmedMore([], '5' as int);
    OneMoreDigit([], '5' as int);
    assert [] + ['5' as int] == ['5' as int];
  }

  function PostText(): seq<Byte> { Bytes("POST / HTTP/1.1\r\nContent-Length: 5\r\n\r\nhello") }

  function PostHead(): seq<Event> {
    [Signal(MessageBegin), Data(Url, Bytes("/")), Data(Field, Bytes("Content-Length")), Data(Value, Bytes("5")), Signal(HeadersComplete)]
  }

  lemma PostTextIs()
    ensures var l, hs := POST_LINE, [LengthHeader()];
            l.Ok() && |RequestText(l, hs)| == 38 && RequestText(l, hs) + Bytes("hello") == PostText() && |PostText()| == 43
  {
    hide RequestLine.Print, RequestLine.Ok, HeaderLines;
    PostLineOk();
    LengthHeaderOk();
  }

  lemma PostHeadIs()
    ensures [Signal(MessageBegin), Data(Url, ['/' as int])] + HeaderEvents([LengthHeader()]) + [Signal(HeadersComplete)] == PostHead()
  {
    hide HeaderEvents;
    LengthHeaderOk();
    assert ['/' as int] == Bytes("/") && ['5' as int] == Bytes("5");
  }

  /** The same for one request in full, from a fresh parser: its length header is recognised,
      its body delivered, and the next request expected. */
  lemma PostIsRead()
    ensures var r := Feed(Init(Request), PostText(), q => false);
            && r.status == Running && r.used == 43 && r.p.state == StartReq && r.p.verb == POST
            && Same(r.events, PostHead() + [Data(Body, Bytes("hello")), Signal(MessageComplete)])
  {
    hide Feed, Same, Merge, AllSendable, RequestText, HeaderLines, HeaderEvents, RequestLine.Ok, SaidFlags, SaidLength, Bytes, PostText, PostHead, LengthHeader;
    var p, hs, skip: Answer := Init(Request), [LengthHeader()], q => false;
    PostTextIs();
    LengthHeaderOk();
    PostHeadIs();
    var q := RequestIsRead(p, POST_LINE, hs, skip);
    assert FramingOf(q) == OfLength(5) && !OverAtOnce(q, skip);
    HeadIsDone(p, RequestText(POST_LINE, hs), [Signal(MessageBegin), Data(Url, ['/' as int])], hs, q, skip);
    BodyOfLength(p, RequestText(POST_LINE, hs), PostHead(), q, Bytes("hello"), skip);
  }
}
