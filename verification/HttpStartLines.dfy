/** The start lines of messages: method, URL and version of a request, version and status of
    a response. */
module HttpStartLines {
  import opened Common
  import opened HttpSwitch
  import opened HttpRun
  import opened HttpInvariant
  import opened HttpExecute
  import opened HttpMessages
  import opened HttpHeaders
  import opened HttpUrls

  // ---------- Methods ----------

  /** The names of the methods. */
  predicate IsMethod(m: Method, name: string) {
    match m
    case DELETE => name == "DELETE" case GET => name == "GET" case HEAD => name == "HEAD" case POST => name == "POST"
    case PUT => name == "PUT" case CONNECT => name == "CONNECT" case OPTIONS => name == "OPTIONS" case TRACE => name == "TRACE"
    case COPY => name == "COPY" case LOCK => name == "LOCK" case MKCOL => name == "MKCOL" case MOVE => name == "MOVE"
    case PROPFIND => name == "PROPFIND" case PROPPATCH => name == "PROPPATCH" case SEARCH => name == "SEARCH"
    case UNLOCK => name == "UNLOCK" case REPORT => name == "REPORT" case MKACTIVITY => name == "MKACTIVITY"
    case CHECKOUT => name == "CHECKOUT" case MERGE => name == "MERGE" case MSEARCH => name == "M-SEARCH"
    case NOTIFY => name == "NOTIFY" case SUBSCRIBE => name == "SUBSCRIBE" case UNSUBSCRIBE => name == "UNSUBSCRIBE"
    case PATCH => name == "PATCH" case PURGE => name == "PURGE"
  }

  /** The method that the parser supposes behind the first i bytes of a method's name. */
  function Supposed(m: Method, i: nat): Method {
    match m
    case CHECKOUT => if i <= 1 then CONNECT else m
    case COPY => if i <= 2 then CONNECT else m
    case MOVE => if i <= 1 then MKCOL else m
    case MERGE => if i <= 1 then MKCOL else m
    case MSEARCH => if i <= 1 then MKCOL else m
    case MKACTIVITY => if i <= 2 then MKCOL else m
    case SEARCH => if i <= 1 then SUBSCRIBE else m
    case PROPFIND => if i <= 1 then POST else m
    case PUT => if i <= 1 then POST else m
    case PATCH => if i <= 1 then POST else m
    case PURGE => if i <= 1 then POST else if i <= 2 then PUT else m
    case PROPPATCH => if i <= 1 then POST else if i <= 4 then PROPFIND else m
    case UNSUBSCRIBE => if i <= 2 then UNLOCK else m
    case _ => m
  }

  /** The byte at index i moves the supposition on. */
  predicate Moves(m: Method, name: string, i: nat)
    requires i < |name| && (name[i] as int) < 256
  {
    var v := Supposed(m, i);
    if i < |MethodString(v)| && name[i] == MethodString(v)[i] then Supposed(m, i + 1) == v
    else OtherMethod(v, i, name[i] as int) == Some(Supposed(m, i + 1))
  }

  /** Nothing else is supposed on the way. */
  predicate Plain(m: Method) { Supposed(m, 1) == m }

  lemma PlainMoves(m: Method, name: string, i: nat)
    requires IsMethod(m, name) && 1 <= i < |name| && Plain(m)
    ensures ' ' < name[i] <= 'Z' && i <= |MethodString(Supposed(m, i))| && Moves(m, name, i)
  {
    hide OtherMethod;
  }

  lemma ShortMoves(m: Method, name: string, i: nat)
    requires IsMethod(m, name) && 1 <= i < |name| && !Plain(m) && i <= 2
    ensures ' ' < name[i] <= 'Z' && i <= |MethodString(Supposed(m, i))| && Moves(m, name, i)
  {
  }

  lemma LongMoves(m: Method, name: string, i: nat)
    requires IsMethod(m, name) && 1 <= i < |name| && !Plain(m) && i > 2 && m != PROPPATCH
    ensures ' ' < name[i] <= 'Z' && i <= |MethodString(Supposed(m, i))| && Moves(m, name, i)
  {
    hide OtherMethod;
  }

  lemma NameMoves(m: Method, name: string, i: nat)
    requires IsMethod(m, name) && 1 <= i < |name|
    ensures ' ' < name[i] <= 'Z' && i <= |MethodString(Supposed(m, i))| && Moves(m, name, i)
  {
    hide Moves, MethodString;
    if Plain(m) { PlainMoves(m, name, i); } else if i <= 2 { ShortMoves(m, name, i); }
    else if m != PROPPATCH { LongMoves(m, name, i); } else { PatchMoves(name, i); }
  }

  lemma PatchMoves(name: string, i: nat)
    requires IsMethod(PROPPATCH, name) && 1 <= i < |name|
    ensures ' ' < name[i] <= 'Z' && i <= |MethodString(Supposed(PROPPATCH, i))| && Moves(PROPPATCH, name, i)
  {
  }

  /** A name as it is sent. */
  function Bytes(text: string): (bytes: seq<Byte>)
    requires forall i :: 0 <= i < |text| ==> (text[i] as int) < 256
    ensures |bytes| == |text| && forall i :: 0 <= i < |text| ==> bytes[i] == text[i] as int
  {
    seq(|text|, i requires 0 <= i < |text| => text[i] as int)
  }

  lemma MethodEnds(m: Method, name: string)
    requires IsMethod(m, name)
    ensures 3 <= |name| <= 11 && Supposed(m, |name|) == m && MethodString(m) == name
    ensures (name[0] as int) < 256 && FirstMethod(name[0] as int) == Some(Supposed(m, 1)) && IsAlpha(name[0] as int)
    ensures name[0] as int != CR && name[0] as int != LF
  {
  }

  lemma AsciiName(m: Method, name: string)
    requires IsMethod(m, name)
    ensures forall i :: 0 <= i < |name| ==> (name[i] as int) < 256
  {
    MethodEnds(m, name);
    hide IsMethod;
    forall i | 1 <= i < |name| ensures (name[i] as int) < 256 { NameMoves(m, name, i); }
  }

  /** The parser behind the first n bytes of a method's name. */
  function InMethod(p: Parser, m: Method, n: nat): Parser {
    p.(state := ReqMethod, nread := p.nread + n, index := n, verb := Supposed(m, n), flags := NO_FLAGS, contentLength := ULLONG_MAX)
  }

  lemma MethodFirst(p: Parser, m: Method, name: string, skip: Answer)
    requires p.state == StartReq && IsMethod(m, name) && p.nread < HTTP_MAX_HEADER_SIZE
    ensures name != "" && (name[0] as int) < 256
            && OneByte(p, name[0] as int, skip) == Run(InMethod(p, m, 1), [Signal(MessageBegin)], Running, 1)
  {
    hide StartSwitch, OneByte, Execute, Switch, ActEvents, IsMethod, FirstMethod, MethodString, IsAlpha;
    MethodEnds(m, name);
    var b: Byte := name[0] as int;
    SwitchEarly(Counted(p), b, skip);
    FirstSwitched(Counted(p), b, Supposed(m, 1));
    Consumed(p, b, skip, InMethod(p, m, 1), [Notify(MessageBegin)]);
    NotifyEvent(MessageBegin, b);
  }

  lemma FirstSwitched(p: Parser, b: Byte, m: Method)
    requires p.state == StartReq && FirstMethod(b) == Some(m) && IsAlpha(b) && b != CR && b != LF
    ensures StartSwitch(p, b) ==
            Out(p.(state := ReqMethod, index := 1, verb := m, flags := NO_FLAGS, contentLength := ULLONG_MAX), [Notify(MessageBegin)], Done)
  {
    hide FirstMethod, IsAlpha, MethodByte;
  }

  lemma MethodNext(p: Parser, m: Method, name: string, i: nat, skip: Answer)
    requires IsMethod(m, name) && 1 <= i < |name| && p.nread + i < HTTP_MAX_HEADER_SIZE
    ensures (name[i] as int) < 256 && OneByte(InMethod(p, m, i), name[i] as int, skip) == Run(InMethod(p, m, i + 1), [], Running, 1)
  {
    hide StartSwitch, OneByte, Execute, Switch, ActEvents, IsMethod, OtherMethod, MethodString, Supposed, Moves;
    NameMoves(m, name, i);
    var q, b: Byte := InMethod(p, m, i), name[i] as int;
    SwitchEarly(Counted(q), b, skip);
    MethodSwitched(Counted(q), m, name, i);
    Quiet(q, b, skip, InMethod(p, m, i + 1));
  }

  lemma MethodSwitched(p: Parser, m: Method, name: string, i: nat)
    requires i < |name| && (name[i] as int) < 256 && i <= |MethodString(Supposed(m, i))| && Moves(m, name, i) && name[i] > ' '
    requires p.state == ReqMethod && p.index == i && p.verb == Supposed(m, i)
    ensures StartSwitch(p, name[i] as int) == Out(p.(index := i + 1, verb := Supposed(m, i + 1)), [], Done)
  {
    hide OtherMethod, MethodString, Supposed;
  }

  lemma {:induction false} MethodRun(p: Parser, m: Method, name: string, n: nat, skip: Answer)
    requires p.state == StartReq && IsMethod(m, name) && 1 <= n <= |name| && p.nread + |name| <= HTTP_MAX_HEADER_SIZE
    requires forall i :: 0 <= i < |name| ==> (name[i] as int) < 256
    ensures Feed(p, Bytes(name)[..n], skip) == Run(InMethod(p, m, n), [Signal(MessageBegin)], Running, n)
  {
    hide Feed, OneByte, IsMethod, InMethod;
    var text := Bytes(name)[..n];
    assert text[..n - 1] == Bytes(name)[..n - 1];
    FeedLast(p, text, skip);
    if n == 1 {
      assert text[..0] == [];
      NoBytes(p, skip);
      MethodFirst(p, m, name, skip);
    } else {
      MethodRun(p, m, name, n - 1, skip);
      MethodNext(p, m, name, n - 1, skip);
    }
  }

  lemma MethodSpace(p: Parser, m: Method, name: string, skip: Answer)
    requires IsMethod(m, name) && p.nread + |name| < HTTP_MAX_HEADER_SIZE
    ensures OneByte(InMethod(p, m, |name|), SPACE, skip) ==
            Run(InMethod(p, m, |name|).(state := ReqSpacesBeforeUrl, verb := m, nread := p.nread + |name| + 1, index := |name| + 1), [], Running, 1)
  {
    hide StartSwitch, OneByte, Execute, Switch, IsMethod, MethodString, Supposed;
    MethodEnds(m, name);
    var q := InMethod(p, m, |name|);
    SwitchEarly(Counted(q), SPACE, skip);
    SpaceSwitched(Counted(q), name);
    Quiet(q, SPACE, skip, q.(state := ReqSpacesBeforeUrl, nread := p.nread + |name| + 1, index := |name| + 1));
  }

  lemma SpaceSwitched(p: Parser, name: string)
    requires p.state == ReqMethod && p.index == |name| && MethodString(p.verb) == name
    ensures StartSwitch(p, SPACE) == Out(p.(state := ReqSpacesBeforeUrl, index := |name| + 1), [], Done)
  {
    hide OtherMethod, MethodString;
  }

  /** Every method is recognised by its name. */
  lemma MethodIsRead(p: Parser, m: Method, name: string, skip: Answer)
    requires p.state == StartReq && IsMethod(m, name) && p.nread + |name| < HTTP_MAX_HEADER_SIZE
    requires forall i :: 0 <= i < |name| ==> (name[i] as int) < 256
    ensures Feed(p, Bytes(name) + [SPACE], skip) ==
            Run(p.(state := ReqSpacesBeforeUrl, nread := p.nread + |name| + 1, index := |name| + 1, verb := m,
                   flags := NO_FLAGS, contentLength := ULLONG_MAX), [Signal(MessageBegin)], Running, |name| + 1)
  {
    hide Feed, OneByte, IsMethod, MethodString, FirstMethod, IsAlpha, Supposed;
    MethodEnds(m, name);
    var text := Bytes(name);
    assert text[..|name|] == text;
    MethodRun(p, m, name, |name|, skip);
    MethodSpace(p, m, name, skip);
    FeedMore(p, text, SPACE, skip);
  }

  // ---------- Numbers ----------

  lemma FeedMore(p: Parser, data: seq<Byte>, b: Byte, skip: Answer)
    ensures Feed(p, data + [b], skip) ==
            if Feed(p, data, skip).status != Running then Feed(p, data, skip)
            else Then(Feed(p, data, skip), OneByte(Feed(p, data, skip).p, b, skip))
  {
    hide Feed, OneByte;
    assert (data + [b])[..|data|] == data;
    FeedLast(p, data + [b], skip);
  }

  /** One more byte that is taken without a callback. */
  lemma Taken(p: Parser, data: seq<Byte>, b: Byte, q: Parser, skip: Answer)
    requires var r := Feed(p, data, skip); r.status == Running && OneByte(r.p, b, skip) == Run(q, [], Running, 1)
    ensures var r := Feed(p, data, skip); Feed(p, data + [b], skip) == Run(q, r.events, Running, r.used + 1)
  {
    hide Feed, OneByte;
    FeedMore(p, data, b, skip);
    assert Feed(p, data, skip).events + [] == Feed(p, data, skip).events;
  }

  /** Two pieces without callbacks. */
  lemma QuietThen(p: Parser, a: seq<Byte>, b: seq<Byte>, q: Parser, q': Parser, skip: Answer)
    requires Feed(p, a, skip) == Run(q, [], Running, |a|) && Feed(q, b, skip) == Run(q', [], Running, |b|)
    ensures Feed(p, a + b, skip) == Run(q', [], Running, |a| + |b|)
  {
    hide Feed, OneByte;
    FeedSplit(p, a, b, skip);
  }

  /** The numbers of a start line. */
  datatype Number = ReqMajorVersion | ReqMinorVersion | ResMajorVersion | ResMinorVersion | StatusCode

  function FirstOf(k: Number): State {
    match k
    case ReqMajorVersion => ReqFirstMajor
    case ReqMinorVersion => ReqFirstMinor
    case ResMajorVersion => ResFirstMajor
    case ResMinorVersion => ResFirstMinor
    case StatusCode => ResFirstStatusCode
  }

  function RestOf(k: Number): State {
    match k
    case ReqMajorVersion => ReqMajor
    case ReqMinorVersion => ReqMinor
    case ResMajorVersion => ResMajor
    case ResMinorVersion => ResMinor
    case StatusCode => ResStatusCode
  }

  /** The parser with the number read so far. */
  function With(p: Parser, k: Number, v: nat): Parser {
    if k == StatusCode then p.(status := v)
    else if k == ReqMajorVersion || k == ResMajorVersion then p.(major := v) else p.(minor := v)
  }

  /** Digits of a number up to 999; a request's major version has no leading zero. */
  predicate NumberOk(k: Number, digits: seq<Byte>) {
    && digits != [] && AllDigits(digits) && DecimalValue(digits) <= 999 && (k == ReqMajorVersion ==> digits[0] != ZERO)
  }

  lemma FirstDigitSwitched(p: Parser, k: Number, b: Byte)
    requires p.state == FirstOf(k) && IsNum(b) && (k == ReqMajorVersion ==> b != ZERO)
    ensures (if GroupOf(p.state) == InRequest then RequestSwitch(p, b) else ResponseSwitch(p, b)) == Out(With(p, k, Digit(b)).(state := RestOf(k)), [], Done)
    ensures GroupOf(p.state) == InRequest || GroupOf(p.state) == InResponse
  {
    hide MajorByte, MinorByte;
  }

  lemma NextDigitSwitched(p: Parser, k: Number, v: nat, b: Byte)
    requires p.state == RestOf(k) && With(p, k, v) == p && IsNum(b) && v * 10 + Digit(b) <= 999
    ensures (if GroupOf(p.state) == InRequest then RequestSwitch(p, b) else ResponseSwitch(p, b)) == Out(With(p, k, v * 10 + Digit(b)), [], Done)
    ensures GroupOf(p.state) == InRequest || GroupOf(p.state) == InResponse
  {
  }

  lemma NumberStates(k: Number)
    ensures TokenState(FirstOf(k)) == None && TokenState(RestOf(k)) == None && ParsingHeader(FirstOf(k)) && ParsingHeader(RestOf(k))
  {
  }

  lemma NumberFirst(p: Parser, k: Number, b: Byte, skip: Answer)
    requires p.state == FirstOf(k) && IsNum(b) && (k == ReqMajorVersion ==> b != ZERO) && p.nread < HTTP_MAX_HEADER_SIZE
    ensures OneByte(p, b, skip) == Run(With(p, k, Digit(b)).(state := RestOf(k), nread := p.nread + 1), [], Running, 1)
  {
    hide RequestSwitch, ResponseSwitch, OneByte, Execute, Switch, IsNum, FirstOf, RestOf, ParsingHeader, TokenState, GroupOf;
    NumberStates(k);
    var q := p.(nread := p.nread + 1);
    SwitchEarly(q, b, skip);
    FirstDigitSwitched(q, k, b);
    Quiet(p, b, skip, With(q, k, Digit(b)).(state := RestOf(k)));
  }

  lemma NumberNext(p: Parser, k: Number, v: nat, b: Byte, skip: Answer)
    requires p.state == RestOf(k) && With(p, k, v) == p && IsNum(b) && v * 10 + Digit(b) <= 999 && p.nread < HTTP_MAX_HEADER_SIZE
    ensures OneByte(p, b, skip) == Run(With(p, k, v * 10 + Digit(b)).(nread := p.nread + 1), [], Running, 1)
  {
    hide RequestSwitch, ResponseSwitch, OneByte, Execute, Switch, IsNum, FirstOf, RestOf, ParsingHeader, TokenState, GroupOf;
    NumberStates(k);
    var q := p.(nread := p.nread + 1);
    SwitchEarly(q, b, skip);
    NextDigitSwitched(q, k, v, b);
    Quiet(p, b, skip, With(q, k, v * 10 + Digit(b)));
  }

  lemma {:induction false} NumberRun(p: Parser, k: Number, digits: seq<Byte>, n: nat, skip: Answer)
    requires p.state == FirstOf(k) && NumberOk(k, digits) && 1 <= n <= |digits| && p.nread + |digits| <= HTTP_MAX_HEADER_SIZE
    ensures Feed(p, digits[..n], skip) ==
            Run(With(p, k, DecimalValue(digits[..n])).(state := RestOf(k), nread := p.nread + n), [], Running, n)
  {
    hide Feed, OneByte, FirstOf, RestOf, DecimalValue, With;
    var front, b := digits[..n - 1], digits[n - 1];
    assert digits[..n] == front + [b];
    DecimalPrefix(digits, n);
    OneMoreDigit(front, b);
    if n == 1 {
      assert front == [];
      NumberRunFirst(p, k, b, skip);
    } else {
      NumberRun(p, k, digits, n - 1, skip);
      NumberRunNext(p, k, front, b, DecimalValue(front), skip);
    }
  }

  lemma NumberRunFirst(p: Parser, k: Number, b: Byte, skip: Answer)
    requires p.state == FirstOf(k) && IsNum(b) && (k == ReqMajorVersion ==> b != ZERO) && p.nread < HTTP_MAX_HEADER_SIZE
    requires AllDigits([] + [b])
    ensures Feed(p, [] + [b], skip) ==
            Run(With(p, k, DecimalValue([] + [b])).(state := RestOf(k), nread := p.nread + 1), [], Running, 1)
  {
    hide Feed, OneByte, FirstOf, RestOf, IsNum, With;
    SingleDigit(b);
    assert [] + [b] == [b];
    FeedOne(p, b, skip);
    NumberFirst(p, k, b, skip);
  }

  lemma SingleDigit(b: Byte)
    requires IsNum(b)
    ensures AllDigits([] + [b]) && DecimalValue([] + [b]) == Digit(b)
  {
    OneMoreDigit([], b);
  }

  lemma WithAgain(p: Parser, k: Number, v: nat, w: nat, n: nat)
    ensures var q := With(p, k, v).(state := RestOf(k), nread := n);
            && q.state == RestOf(k) && q.nread == n && With(q, k, v) == q
            && With(q, k, w).(nread := n + 1) == With(p, k, w).(state := RestOf(k), nread := n + 1)
  {
    hide RestOf;
  }

  lemma NumberRunNext(p: Parser, k: Number, front: seq<Byte>, b: Byte, v: nat, skip: Answer)
    requires IsNum(b) && v * 10 + Digit(b) <= 999 && p.nread + |front| < HTTP_MAX_HEADER_SIZE
    requires Feed(p, front, skip) == Run(With(p, k, v).(state := RestOf(k), nread := p.nread + |front|), [], Running, |front|)
    ensures Feed(p, front + [b], skip) ==
            Run(With(p, k, v * 10 + Digit(b)).(state := RestOf(k), nread := p.nread + |front| + 1), [], Running, |front| + 1)
  {
    hide Feed, OneByte, FirstOf, RestOf, IsNum, With;
    var w := v * 10 + Digit(b);
    WithAgain(p, k, v, w, p.nread + |front|);
    NumberNext(With(p, k, v).(state := RestOf(k), nread := p.nread + |front|), k, v, b, skip);
    Taken(p, front, b, With(p, k, w).(state := RestOf(k), nread := p.nread + |front| + 1), skip);
  }

  // ---------- Versions and start lines ----------

  /** A byte that only moves the machine on. */
  lemma Onward(p: Parser, s: State, ch: Byte, skip: Answer)
    requires GroupOf(p.state) == InRequest || GroupOf(p.state) == InResponse
    requires (if GroupOf(p.state) == InRequest then RequestSwitch(Counted(p), ch) else ResponseSwitch(Counted(p), ch)) == To(Counted(p), s)
    requires TokenState(s) == None && p.nread < HTTP_MAX_HEADER_SIZE
    ensures OneByte(p, ch, skip) == Run(p.(state := s, nread := p.nread + 1), [], Running, 1)
  {
    hide RequestSwitch, ResponseSwitch, OneByte, Execute, Switch, GroupOf, TokenState, ParsingHeader;
    LineStates(p.state);
    SwitchEarly(Counted(p), ch, skip);
    Quiet(p, ch, skip, Counted(p).(state := s));
  }

  lemma LineStates(s: State)
    requires GroupOf(s) == InRequest || GroupOf(s) == InResponse
    ensures TokenState(s) == None && ParsingHeader(s)
  {
  }

  const HTTP: seq<Byte> := ['H' as int, 'T' as int, 'T' as int, 'P' as int, '/' as int]

  /** The byte that each state of the word "HTTP/" waits for, and the state behind it. */
  function Awaited(s: State): Byte {
    match s
    case ReqHttpStart => 'H' as int
    case ReqHttpHTT => 'P' as int
    case ResHTT => 'P' as int
    case ReqHttpHTTP => '/' as int
    case ResHTTP => '/' as int
    case _ => 'T' as int
  }

  function Following(s: State): State {
    match s
    case ReqHttpStart => ReqHttpH
    case ReqHttpH => ReqHttpHT
    case ReqHttpHT => ReqHttpHTT
    case ReqHttpHTT => ReqHttpHTTP
    case ReqHttpHTTP => ReqFirstMajor
    case ResH => ResHT
    case ResHT => ResHTT
    case ResHTT => ResHTTP
    case _ => ResFirstMajor
  }

  predicate InWord(s: State) {
    s == ReqHttpStart || s == ReqHttpH || s == ReqHttpHT || s == ReqHttpHTT || s == ReqHttpHTTP
    || s == ResH || s == ResHT || s == ResHTT || s == ResHTTP
  }

  lemma WordByte(p: Parser, skip: Answer)
    requires InWord(p.state) && p.nread < HTTP_MAX_HEADER_SIZE
    ensures OneByte(p, Awaited(p.state), skip) == Run(p.(state := Following(p.state), nread := p.nread + 1), [], Running, 1)
  {
    hide OneByte, MajorByte, MinorByte, FirstMinor;
    Onward(p, Following(p.state), Awaited(p.state), skip);
  }

  lemma TwoBytes(p: Parser, data: seq<Byte>, skip: Answer)
    requires var r := Feed(p, data, skip);
             r.status == Running && r.p.nread + 2 <= HTTP_MAX_HEADER_SIZE && InWord(r.p.state) && InWord(Following(r.p.state))
    ensures var r := Feed(p, data, skip);
            var s := r.p.state;
            Feed(p, data + [Awaited(s)] + [Awaited(Following(s))], skip) ==
            Run(r.p.(state := Following(Following(s)), nread := r.p.nread + 2), r.events, Running, r.used + 2)
  {
    hide Feed, OneByte, InWord, Awaited, Following;
    var q := Feed(p, data, skip).p;
    var q1 := q.(state := Following(q.state), nread := q.nread + 1);
    WordByte(q, skip);
    Taken(p, data, Awaited(q.state), q1, skip);
    WordByte(q1, skip);
    Taken(p, data + [Awaited(q.state)], Awaited(q1.state), q1.(state := Following(q1.state), nread := q.nread + 2), skip);
  }

  /** Four bytes from a state of the word on. */
  lemma FourBytes(p: Parser, data: seq<Byte>, r: Run, skip: Answer)
    requires r.p.nread + 4 <= HTTP_MAX_HEADER_SIZE && (r.p.state == ReqHttpH || r.p.state == ResH)
    requires Feed(p, data, skip) == r && r.status == Running
    ensures Feed(p, data + ['T' as int] + ['T' as int] + ['P' as int] + ['/' as int], skip) ==
            r.(p := r.p.(state := if r.p.state == ReqHttpH then ReqFirstMajor else ResFirstMajor, nread := r.p.nread + 4), used := r.used + 4)
  {
    hide Feed, OneByte, Awaited, Following, InWord;
    Spelling(r.p.state);
    TwoBytes(p, data, skip);
    TwoBytes(p, data + ['T' as int] + ['T' as int], skip);
  }

  lemma Spelling(s: State)
    requires s == ReqHttpH || s == ResH
    ensures InWord(s) && InWord(Following(s)) && Awaited(s) == 'T' as int && Awaited(Following(s)) == 'T' as int
    ensures var t := Following(Following(s));
            InWord(t) && InWord(Following(t)) && Awaited(t) == 'P' as int && Awaited(Following(t)) == '/' as int
            && Following(Following(t)) == if s == ReqHttpH then ReqFirstMajor else ResFirstMajor
  {
  }

  lemma RequestWord(p: Parser, skip: Answer)
    requires p.state == ReqHttpStart && p.nread + 5 <= HTTP_MAX_HEADER_SIZE
    ensures Feed(p, HTTP, skip) == Run(p.(state := ReqFirstMajor, nread := p.nread + 5), [], Running, 5)
  {
    hide Feed, OneByte, Awaited, Following, InWord;
    var h: Byte := 'H' as int;
    FirstOfWord(p, skip);
    FourBytes(p, [h], Feed(p, [h], skip), skip);
    HttpIs();
  }

  lemma HttpIs()
    ensures ['H' as int] + ['T' as int] + ['T' as int] + ['P' as int] + ['/' as int] == HTTP
  {
  }

  lemma FirstOfWord(p: Parser, skip: Answer)
    requires p.state == ReqHttpStart && p.nread < HTTP_MAX_HEADER_SIZE
    ensures Feed(p, ['H' as int], skip) == Run(p.(state := ReqHttpH, nread := p.nread + 1), [], Running, 1)
  {
    hide Feed, OneByte;
    WordByte(p, skip);
    FeedOne(p, 'H' as int, skip);
  }

  lemma RequestLineEnd(p: Parser, data: seq<Byte>, skip: Answer)
    requires var r := Feed(p, data, skip); r.status == Running && r.p.state == ReqMinor && r.p.nread + 2 <= HTTP_MAX_HEADER_SIZE
    ensures var r := Feed(p, data, skip);
            Feed(p, data + [CR] + [LF], skip) == Run(r.p.(state := HeaderFieldStart, nread := r.p.nread + 2), r.events, Running, r.used + 2)
  {
    hide Feed, OneByte;
    CrBehind(p, data, skip);
    LineLf(Feed(p, data + [CR], skip).p, skip);
    Taken(p, data + [CR], LF, OneByte(Feed(p, data + [CR], skip).p, LF, skip).p, skip);
  }

  lemma CrBehind(p: Parser, data: seq<Byte>, skip: Answer)
    requires var r := Feed(p, data, skip); r.status == Running && r.p.state == ReqMinor && r.p.nread < HTTP_MAX_HEADER_SIZE
    ensures var r := Feed(p, data, skip);
            Feed(p, data + [CR], skip) == Run(r.p.(state := ReqLineAlmostDone, nread := r.p.nread + 1), r.events, Running, r.used + 1)
  {
    hide Feed, OneByte;
    LineCr(Feed(p, data, skip).p, skip);
    Taken(p, data, CR, OneByte(Feed(p, data, skip).p, CR, skip).p, skip);
  }

  lemma LineCr(p: Parser, skip: Answer)
    requires p.state == ReqMinor && p.nread < HTTP_MAX_HEADER_SIZE
    ensures OneByte(p, CR, skip) == Run(p.(state := ReqLineAlmostDone, nread := p.nread + 1), [], Running, 1)
  {
    hide OneByte, MajorByte, MinorByte, FirstMinor, ResponseSwitch;
    Onward(p, ReqLineAlmostDone, CR, skip);
  }

  lemma LineLf(p: Parser, skip: Answer)
    requires p.state == ReqLineAlmostDone && p.nread < HTTP_MAX_HEADER_SIZE
    ensures OneByte(p, LF, skip) == Run(p.(state := HeaderFieldStart, nread := p.nread + 1), [], Running, 1)
  {
    hide OneByte, MajorByte, MinorByte, FirstMinor, ResponseSwitch;
    Onward(p, HeaderFieldStart, LF, skip);
  }

  const DOT: Byte := 46

  lemma Dot(p: Parser, skip: Answer)
    requires (p.state == ReqMajor || p.state == ResMajor) && p.nread < HTTP_MAX_HEADER_SIZE
    ensures OneByte(p, DOT, skip) ==
            Run(p.(state := if p.state == ReqMajor then ReqFirstMinor else ResFirstMinor, nread := p.nread + 1), [], Running, 1)
  {
    hide OneByte, MinorByte, FirstMinor;
    Onward(p, if p.state == ReqMajor then ReqFirstMinor else ResFirstMinor, DOT, skip);
  }

  /** The value of the digits. */
  predicate Amounts(digits: seq<Byte>, v: nat) { AllDigits(digits) && DecimalValue(digits) == v }

  lemma NumberIsRead(p: Parser, k: Number, digits: seq<Byte>, v: nat, skip: Answer)
    requires p.state == FirstOf(k) && NumberOk(k, digits) && Amounts(digits, v) && p.nread + |digits| <= HTTP_MAX_HEADER_SIZE
    ensures Feed(p, digits, skip) == Run(With(p, k, v).(state := RestOf(k), nread := p.nread + |digits|), [], Running, |digits|)
  {
    hide Feed, OneByte, DecimalValue, IsNum, With, FirstOf, RestOf;
    assert digits[..|digits|] == digits;
    NumberRun(p, k, digits, |digits|, skip);
  }

  lemma MajorDigits(p: Parser, response: bool, major: seq<Byte>, v: nat, skip: Answer)
    requires NumberOk(if response then ResMajorVersion else ReqMajorVersion, major) && Amounts(major, v)
    requires p.state == (if response then ResFirstMajor else ReqFirstMajor) && p.nread + |major| <= HTTP_MAX_HEADER_SIZE
    ensures Feed(p, major, skip) == Run(p.(state := if response then ResMajor else ReqMajor, nread := p.nread + |major|, major := v), [], Running, |major|)
  {
    hide Feed, OneByte, NumberOk, Amounts;
    NumberIsRead(p, if response then ResMajorVersion else ReqMajorVersion, major, v, skip);
  }

  lemma MajorRun(p: Parser, response: bool, major: seq<Byte>, v: nat, skip: Answer)
    requires NumberOk(if response then ResMajorVersion else ReqMajorVersion, major) && Amounts(major, v)
    requires p.state == (if response then ResFirstMajor else ReqFirstMajor) && p.nread + |major| + 1 <= HTTP_MAX_HEADER_SIZE
    ensures Feed(p, major + [DOT], skip) ==
            Run(p.(state := if response then ResFirstMinor else ReqFirstMinor, nread := p.nread + |major| + 1, major := v), [], Running, |major| + 1)
  {
    hide Feed, OneByte, NumberOk, Amounts;
    MajorDigits(p, response, major, v, skip);
    DotBehind(p, major, p.(state := if response then ResMajor else ReqMajor, nread := p.nread + |major|, major := v), skip);
  }

  lemma DotBehind(p: Parser, data: seq<Byte>, q: Parser, skip: Answer)
    requires Feed(p, data, skip) == Run(q, [], Running, |data|) && (q.state == ReqMajor || q.state == ResMajor) && q.nread < HTTP_MAX_HEADER_SIZE
    ensures Feed(p, data + [DOT], skip) ==
            Run(q.(state := if q.state == ReqMajor then ReqFirstMinor else ResFirstMinor, nread := q.nread + 1), [], Running, |data| + 1)
  {
    hide Feed, OneByte;
    Dot(q, skip);
    Taken(p, data, DOT, OneByte(q, DOT, skip).p, skip);
  }

  lemma MinorRun(p: Parser, response: bool, minor: seq<Byte>, v: nat, skip: Answer)
    requires NumberOk(if response then ResMinorVersion else ReqMinorVersion, minor) && Amounts(minor, v)
    requires p.state == (if response then ResFirstMinor else ReqFirstMinor) && p.nread + |minor| <= HTTP_MAX_HEADER_SIZE
    ensures Feed(p, minor, skip) == Run(p.(state := if response then ResMinor else ReqMinor, nread := p.nread + |minor|, minor := v), [], Running, |minor|)
  {
    hide Feed, OneByte, NumberOk, Amounts;
    NumberIsRead(p, if response then ResMinorVersion else ReqMinorVersion, minor, v, skip);
  }

  lemma SameMinor(minor: seq<Byte>)
    ensures NumberOk(ResMinorVersion, minor) == NumberOk(ReqMinorVersion, minor)
  {
  }

  /** Major and minor version, in digits. */
  lemma VersionRun(p: Parser, response: bool, major: seq<Byte>, minor: seq<Byte>, v: nat, w: nat, skip: Answer)
    requires NumberOk(if response then ResMajorVersion else ReqMajorVersion, major) && NumberOk(ReqMinorVersion, minor)
    requires p.state == (if response then ResFirstMajor else ReqFirstMajor) && Amounts(major, v) && Amounts(minor, w)
    requires p.nread + |major| + 1 + |minor| <= HTTP_MAX_HEADER_SIZE
    ensures Feed(p, major + [DOT] + minor, skip) ==
            Run(p.(state := if response then ResMinor else ReqMinor, nread := p.nread + |major| + 1 + |minor|, major := v, minor := w),
                [], Running, |major| + 1 + |minor|)
  {
    hide Feed, OneByte, NumberOk, Amounts;
    SameMinor(minor);
    MajorRun(p, response, major, v, skip);
    var q := p.(state := if response then ResFirstMinor else ReqFirstMinor, nread := p.nread + |major| + 1, major := v);
    MinorRun(q, response, minor, w, skip);
    QuietThen(p, major + [DOT], minor, q, q.(state := if response then ResMinor else ReqMinor, nread := q.nread + |minor|, minor := w), skip);
  }

  // ---------- Request lines ----------

  /** A request line as sent. */
  datatype RequestLine = RequestLine(verb: Method, name: string, url: seq<Byte>, major: seq<Byte>, minor: seq<Byte>) {
    ghost predicate Ok() {
      && IsMethod(verb, name) && (forall i :: 0 <= i < |name| ==> (name[i] as int) < 256)
      && UrlText(url) && UrlOfRequest(verb, url)
      && NumberOk(ReqMajorVersion, major) && NumberOk(ReqMinorVersion, minor)
    }

    function Start(): seq<Byte>
      requires forall i :: 0 <= i < |name| ==> (name[i] as int) < 256
    {
      Bytes(name) + [SPACE] + (url + [SPACE])
    }

    function Version(): seq<Byte> { HTTP + (major + [DOT] + minor) }

    function Print(): seq<Byte>
      requires forall i :: 0 <= i < |name| ==> (name[i] as int) < 256
    {
      Start() + Version() + [CR] + [LF]
    }
  }

  /** Method and URL. */
  lemma StartIsRead(p: Parser, l: RequestLine, skip: Answer)
    requires p.state == StartReq && l.Ok() && p.nread + |l.Start()| <= HTTP_MAX_HEADER_SIZE
    ensures var r := Feed(p, l.Start(), skip);
            && r == Run(p.(state := ReqHttpStart, nread := p.nread + |l.Start()|, index := |l.name| + 1, verb := l.verb,
                           flags := NO_FLAGS, contentLength := ULLONG_MAX), r.events, Running, |l.Start()|)
            && Same(r.events, [Signal(MessageBegin), Data(Url, l.url)])
  {
    hide Feed, OneByte, Same, Merge, IsMethod, UrlOfRequest, UrlText, NumberOk, Bytes;
    var a, b := Bytes(l.name) + [SPACE], l.url + [SPACE];
    MethodIsRead(p, l.verb, l.name, skip);
    var q := Feed(p, a, skip).p;
    UrlAcceptedIff(q, l.url, skip);
    FeedSplit(p, a, b, skip);
    SameAfter([Signal(MessageBegin)], Feed(q, b, skip).events, [Data(Url, l.url)]);
    assert [Signal(MessageBegin)] + [Data(Url, l.url)] == [Signal(MessageBegin), Data(Url, l.url)];
  }

  lemma VersionIsRead(p: Parser, l: RequestLine, skip: Answer)
    requires p.state == ReqHttpStart && l.Ok() && p.nread + |l.Version()| <= HTTP_MAX_HEADER_SIZE
    ensures Feed(p, l.Version(), skip) ==
            Run(p.(state := ReqMinor, nread := p.nread + |l.Version()|, major := DecimalValue(l.major), minor := DecimalValue(l.minor)),
                [], Running, |l.Version()|)
  {
    hide Feed, OneByte, IsMethod, UrlOfRequest, UrlText, DecimalValue, IsNum;
    RequestWord(p, skip);
    var q := p.(state := ReqFirstMajor, nread := p.nread + 5);
    VersionRun(q, false, l.major, l.minor, DecimalValue(l.major), DecimalValue(l.minor), skip);
    var n := |l.major| + 1 + |l.minor|;
    QuietThen(p, HTTP, l.major + [DOT] + l.minor, q,
              q.(state := ReqMinor, nread := q.nread + n, major := DecimalValue(l.major), minor := DecimalValue(l.minor)), skip);
  }

  /** A request line: the method is recognised and the URL reported exactly. */
  lemma RequestLineIsRead(p: Parser, l: RequestLine, skip: Answer)
    requires p.state == StartReq && l.Ok() && p.nread + |l.Print()| <= HTTP_MAX_HEADER_SIZE
    ensures var r := Feed(p, l.Print(), skip);
            && r == Run(p.(state := HeaderFieldStart, nread := p.nread + |l.Print()|, index := |l.name| + 1, verb := l.verb,
                           flags := NO_FLAGS, contentLength := ULLONG_MAX, major := DecimalValue(l.major), minor := DecimalValue(l.minor)),
                        r.events, Running, |l.Print()|)
            && Same(r.events, [Signal(MessageBegin), Data(Url, l.url)])
  {
    hide Feed, OneByte, Same, Merge, IsMethod, UrlOfRequest, UrlText, DecimalValue, IsNum, Bytes, RequestLine.Start, RequestLine.Version;
    StartIsRead(p, l, skip);
    var q := Feed(p, l.Start(), skip).p;
    VersionIsRead(q, l, skip);
    FeedSplit(p, l.Start(), l.Version(), skip);
    var r := Feed(p, l.Start(), skip);
    assert r.events + [] == r.events;
    RequestLineEnd(p, l.Start() + l.Version(), skip);
  }

  // ---------- Status lines ----------

  /** A status line as sent. */
  datatype StatusLine = StatusLine(major: seq<Byte>, minor: seq<Byte>, code: seq<Byte>, reason: seq<Byte>) {
    predicate Ok() {
      NumberOk(ResMajorVersion, major) && NumberOk(ResMinorVersion, minor) && NumberOk(StatusCode, code) && IsLine(reason)
    }

    function Version(): seq<Byte> { HTTP + (major + [DOT] + minor) }

    function Status(): seq<Byte> { [SPACE] + code + [SPACE] + reason + [CR] + [LF] }

    function Print(): seq<Byte> { Version() + Status() }
  }

  lemma ResponseFirst(p: Parser, skip: Answer)
    requires p.state == StartRes && p.nread < HTTP_MAX_HEADER_SIZE
    ensures OneByte(p, 'H' as int, skip) ==
            Run(p.(state := ResH, nread := p.nread + 1, flags := NO_FLAGS, contentLength := ULLONG_MAX), [Signal(MessageBegin)], Running, 1)
  {
    hide StartSwitch, ResponseSwitch, RequestSwitch, UrlSwitch, OneByte, Execute, Switch, ActEvents;
    var b: Byte := 'H' as int;
    SwitchEarly(Counted(p), b, skip);
    ResponseSwitched(Counted(p));
    Consumed(p, b, skip, p.(state := ResH, nread := p.nread + 1, flags := NO_FLAGS, contentLength := ULLONG_MAX), [Notify(MessageBegin)]);
    NotifyEvent(MessageBegin, b);
  }

  lemma ResponseSwitched(p: Parser)
    requires p.state == StartRes
    ensures StartSwitch(p, 'H' as int) == Out(p.(state := ResH, flags := NO_FLAGS, contentLength := ULLONG_MAX), [Notify(MessageBegin)], Done)
  {
    hide MethodByte, FirstMethod;
  }

  lemma ResponseWord(p: Parser, skip: Answer)
    requires p.state == StartRes && p.nread + 5 <= HTTP_MAX_HEADER_SIZE
    ensures Feed(p, HTTP, skip) ==
            Run(p.(state := ResFirstMajor, nread := p.nread + 5, flags := NO_FLAGS, contentLength := ULLONG_MAX), [Signal(MessageBegin)], Running, 5)
  {
    hide Feed, OneByte;
    var h: Byte := 'H' as int;
    ResponseFirst(p, skip);
    FeedOne(p, h, skip);
    FourBytes(p, [h], Feed(p, [h], skip), skip);
    HttpIs();
  }

  lemma ResponseVersion(p: Parser, l: StatusLine, skip: Answer)
    requires p.state == StartRes && l.Ok() && p.nread + |l.Version()| <= HTTP_MAX_HEADER_SIZE
    ensures Feed(p, l.Version(), skip) ==
            Run(p.(state := ResMinor, nread := p.nread + |l.Version()|, flags := NO_FLAGS, contentLength := ULLONG_MAX,
                   major := DecimalValue(l.major), minor := DecimalValue(l.minor)), [Signal(MessageBegin)], Running, |l.Version()|)
  {
    hide Feed, OneByte, DecimalValue, IsNum;
    ResponseWord(p, skip);
    var q := p.(state := ResFirstMajor, nread := p.nread + 5, flags := NO_FLAGS, contentLength := ULLONG_MAX);
    VersionRun(q, true, l.major, l.minor, DecimalValue(l.major), DecimalValue(l.minor), skip);
    FeedSplit(p, HTTP, l.major + [DOT] + l.minor, skip);
    assert [Signal(MessageBegin)] + [] == [Signal(MessageBegin)];
  }

  /** The single bytes of a status line. */
  lemma StatusBytes(p: Parser, ch: Byte, skip: Answer)
    requires p.nread < HTTP_MAX_HEADER_SIZE
    ensures p.state == ResMinor ==> OneByte(p, SPACE, skip) == Run(p.(state := ResFirstStatusCode, nread := p.nread + 1), [], Running, 1)
    ensures p.state == ResStatusCode ==> OneByte(p, SPACE, skip) == Run(p.(state := ResStatus, nread := p.nread + 1), [], Running, 1)
    ensures p.state == ResStatus && LineByte(ch) ==> OneByte(p, ch, skip) == Run(p.(nread := p.nread + 1), [], Running, 1)
    ensures p.state == ResStatus ==> OneByte(p, CR, skip) == Run(p.(state := ResLineAlmostDone, nread := p.nread + 1), [], Running, 1)
  {
    hide OneByte, ResponseSwitch, RequestSwitch;
    StatusSwitched(Counted(p), ch);
    if p.state == ResMinor { Onward(p, ResFirstStatusCode, SPACE, skip); }
    if p.state == ResStatusCode { Onward(p, ResStatus, SPACE, skip); }
    if p.state == ResStatus {
      Onward(p, ResLineAlmostDone, CR, skip);
      if LineByte(ch) { Onward(p, ResStatus, ch, skip); }
    }
  }

  lemma StatusSwitched(p: Parser, ch: Byte)
    ensures p.state == ResMinor ==> ResponseSwitch(p, SPACE) == To(p, ResFirstStatusCode)
    ensures p.state == ResStatusCode ==> ResponseSwitch(p, SPACE) == To(p, ResStatus)
    ensures p.state == ResStatus ==> ResponseSwitch(p, CR) == To(p, ResLineAlmostDone)
    ensures p.state == ResStatus && LineByte(ch) ==> ResponseSwitch(p, ch) == To(p, ResStatus)
  {
    hide MajorByte, MinorByte, FirstMinor;
  }

  lemma StatusEnd(p: Parser, skip: Answer)
    requires p.state == ResLineAlmostDone && p.nread < HTTP_MAX_HEADER_SIZE
    ensures OneByte(p, LF, skip) == Run(p.(state := HeaderFieldStart, nread := p.nread + 1), [Signal(StatusComplete)], Running, 1)
  {
    hide ResponseSwitch, OneByte, Execute, Switch, ActEvents;
    SwitchEarly(Counted(p), LF, skip);
    EndOfStatus(Counted(p));
    Consumed(p, LF, skip, p.(state := HeaderFieldStart, nread := p.nread + 1), [Notify(StatusComplete)]);
    NotifyEvent(StatusComplete, LF);
  }

  lemma EndOfStatus(p: Parser)
    requires p.state == ResLineAlmostDone
    ensures ResponseSwitch(p, LF) == Out(p.(state := HeaderFieldStart), [Notify(StatusComplete)], Done)
  {
    hide MajorByte, MinorByte, FirstMinor;
  }

  lemma {:induction false} ReasonRun(p: Parser, reason: seq<Byte>, skip: Answer)
    requires p.state == ResStatus && IsLine(reason) && p.nread + |reason| <= HTTP_MAX_HEADER_SIZE
    ensures Feed(p, reason, skip) == Run(p.(nread := p.nread + |reason|), [], Running, |reason|)
    decreases |reason|
  {
    hide Feed, OneByte;
    if reason == [] {
      NoBytes(p, skip);
    } else {
      var front, b := reason[..|reason| - 1], reason[|reason| - 1];
      assert reason == front + [b];
      ReasonRun(p, front, skip);
      var q := p.(nread := p.nread + |front|);
      StatusBytes(q, b, skip);
      Taken(p, front, b, q.(nread := p.nread + |reason|), skip);
    }
  }

  /** The code. */
  lemma CodeRun(p: Parser, code: seq<Byte>, v: nat, skip: Answer)
    requires p.state == ResMinor && NumberOk(StatusCode, code) && v == DecimalValue(code) && p.nread + |code| + 2 <= HTTP_MAX_HEADER_SIZE
    ensures Feed(p, [SPACE] + code + [SPACE], skip) ==
            Run(p.(state := ResStatus, nread := p.nread + |code| + 2, status := v), [], Running, |code| + 2)
  {
    hide Feed, OneByte, DecimalValue, IsNum;
    var p1 := p.(state := ResFirstStatusCode, nread := p.nread + 1);
    var p2 := p.(state := ResStatusCode, nread := p.nread + |code| + 1, status := v);
    assert code[..|code|] == code;
    NumberRun(p1, StatusCode, code, |code|, skip);
    CodeAround(p, code, p1, p2, skip);
  }

  lemma CodeAround(p: Parser, code: seq<Byte>, p1: Parser, p2: Parser, skip: Answer)
    requires p.state == ResMinor && p1 == p.(state := ResFirstStatusCode, nread := p.nread + 1)
    requires p2.state == ResStatusCode && p2.nread == p.nread + |code| + 1 < HTTP_MAX_HEADER_SIZE
    requires Feed(p1, code, skip) == Run(p2, [], Running, |code|)
    ensures Feed(p, [SPACE] + code + [SPACE], skip) == Run(p2.(state := ResStatus, nread := p2.nread + 1), [], Running, |code| + 2)
  {
    hide Feed, OneByte;
    StatusBytes(p, SPACE, skip);
    FeedOne(p, SPACE, skip);
    QuietThen(p, [SPACE], code, p1, p2, skip);
    StatusBytes(p2, SPACE, skip);
    Taken(p, [SPACE] + code, SPACE, p2.(state := ResStatus, nread := p2.nread + 1), skip);
  }

  lemma ReasonAndEnd(p: Parser, data: seq<Byte>, q: Parser, reason: seq<Byte>, skip: Answer)
    requires Feed(p, data, skip) == Run(q, [], Running, |data|) && q.state == ResStatus && IsLine(reason)
    requires q.nread + |reason| + 2 <= HTTP_MAX_HEADER_SIZE
    ensures Feed(p, data + reason + [CR] + [LF], skip) ==
            Run(q.(state := HeaderFieldStart, nread := q.nread + |reason| + 2), [Signal(StatusComplete)], Running, |data| + |reason| + 2)
  {
    hide Feed, OneByte, IsLine;
    ReasonRun(q, reason, skip);
    var q2 := q.(nread := q.nread + |reason|);
    QuietThen(p, data, reason, q, q2, skip);
    StatusBytes(q2, SPACE, skip);
    var q3 := q2.(state := ResLineAlmostDone, nread := q2.nread + 1);
    Taken(p, data + reason, CR, q3, skip);
    StatusEnd(q3, skip);
    FeedMore(p, data + reason + [CR], LF, skip);
    assert [] + [Signal(StatusComplete)] == [Signal(StatusComplete)];
  }

  lemma StatusIsRead(p: Parser, l: StatusLine, v: nat, skip: Answer)
    requires p.state == ResMinor && l.Ok() && v == DecimalValue(l.code) && p.nread + |l.Status()| <= HTTP_MAX_HEADER_SIZE
    ensures Feed(p, l.Status(), skip) ==
            Run(p.(state := HeaderFieldStart, nread := p.nread + |l.Status()|, status := v), [Signal(StatusComplete)], Running, |l.Status()|)
  {
    hide Feed, OneByte, IsNum, DecimalValue, IsLine;
    CodeRun(p, l.code, v, skip);
    ReasonAndEnd(p, [SPACE] + l.code + [SPACE], p.(state := ResStatus, nread := p.nread + |l.code| + 2, status := v), l.reason, skip);
  }

  /** A status line: version and code are stored, and its end is reported. */
  lemma StatusLineIsRead(p: Parser, l: StatusLine, skip: Answer)
    requires p.state == StartRes && l.Ok() && p.nread + |l.Print()| <= HTTP_MAX_HEADER_SIZE
    ensures Feed(p, l.Print(), skip) ==
            Run(p.(state := HeaderFieldStart, nread := p.nread + |l.Print()|, flags := NO_FLAGS, contentLength := ULLONG_MAX,
                   major := DecimalValue(l.major), minor := DecimalValue(l.minor), status := DecimalValue(l.code)),
                [Signal(MessageBegin), Signal(StatusComplete)], Running, |l.Print()|)
  {
    hide Feed, OneByte, DecimalValue, IsNum, StatusLine.Version, StatusLine.Status;
    ResponseVersion(p, l, skip);
    var q := Feed(p, l.Version(), skip).p;
    StatusIsRead(q, l, DecimalValue(l.code), skip);
    FeedSplit(p, l.Version(), l.Status(), skip);
    assert [Signal(MessageBegin)] + [Signal(StatusComplete)] == [Signal(MessageBegin), Signal(StatusComplete)];
  }
}
