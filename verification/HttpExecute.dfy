/** http_parser_execute: the loop over a buffer, with marks for tokens that may span
    buffers and with bodies read in bulk.  It makes the callbacks of the byte-by-byte
    meaning. */
module HttpExecute {
  import opened Common
  import opened HttpSwitch
  import opened HttpRun
  import opened HttpInvariant

  // ---------- Marks ----------

  type Marks = map<Token, nat>

  /** At most one mark is set: the one for the open token. */
  ghost predicate MarksAre(marks: Marks, open: Option<Token>, p: nat) {
    match open
    case None => marks == map[]
    case Some(k) => k in marks && marks == map[k := marks[k]] && marks[k] <= p
  }

  /** What the open mark would report at position p. */
  ghost function Pending(marks: Marks, open: Option<Token>, data: seq<Byte>, p: nat): seq<Event>
    requires MarksAre(marks, open, p) && p <= |data|
  {
    match open
    case None => []
    case Some(k) => [Data(k, data[marks[k]..p])]
  }

  /** The acts fit the open mark: nothing is opened twice, or notified while a token is open. */
  ghost predicate ActsTo(open: Option<Token>, acts: seq<Act>, open': Option<Token>)
    decreases |acts|
  {
    if acts == [] then open' == open
    else
      match acts[0]
      case Open(k) => k != Body && open == None && ActsTo(Some(k), acts[1..], open')
      case CloseMark(k) => (open == Some(k) || (k == Body && open == None)) && ActsTo(None, acts[1..], open')
      case CloseWith(_) => false
      case Notify(_) => open == None && ActsTo(None, acts[1..], open')
  }

  /** A token's mark is set exactly in its states; the body's may be left behind a chunk, or
      at the end of the buffer. */
  ghost predicate Fits(open: Option<Token>, s: State) {
    open == TokenState(s) || ((s == ChunkDataAlmostDone || Bulk(s)) && open == Some(Body))
  }

  ghost predicate ActsFit(p: Parser, o: Out, open: Option<Token>) {
    match o.next
    case Fail(_) => ActsTo(open, o.acts, open) || (exists k :: ActsTo(open, o.acts, Some(k)))
    case Leave => TokenState(o.p.state) == None && ActsTo(open, o.acts, None)
    case Broken => true
    case _ => ActsTo(open, o.acts, TokenState(o.p.state))
  }

  lemma ActLists(open: Option<Token>, k: Token, n: Note)
    ensures ActsTo(open, [], open)
    ensures open == None ==> ActsTo(open, [Notify(n)], None)
    ensures open == None && k != Body ==> ActsTo(open, [Open(k)], Some(k)) && ActsTo(open, [Open(k), CloseMark(k)], None)
    ensures open == Some(k) || (k == Body && open == None) ==> ActsTo(open, [CloseMark(k)], None)
  {
    assert [Open(k), CloseMark(k)][1..] == [CloseMark(k)];
    assert ActsTo(Some(k), [CloseMark(k)], None);
  }

  lemma AllLists(open: Option<Token>)
    ensures ActsTo(open, [], open)
    ensures open == None ==> forall n :: ActsTo(open, [Notify(n)], None)
    ensures open == None ==> forall k :: k != Body ==> ActsTo(open, [Open(k)], Some(k)) && ActsTo(open, [Open(k), CloseMark(k)], None)
    ensures forall k :: open == Some(k) || (k == Body && open == None) ==> ActsTo(open, [CloseMark(k)], None)
  {
    forall n: Note
      ensures open == None ==> ActsTo(open, [Notify(n)], None)
    {
      ActLists(open, Body, n);
    }
    forall k: Token
      ensures open == None && k != Body ==> ActsTo(open, [Open(k)], Some(k)) && ActsTo(open, [Open(k), CloseMark(k)], None)
      ensures open == Some(k) || (k == Body && open == None) ==> ActsTo(open, [CloseMark(k)], None)
    {
      ActLists(open, k, MessageBegin);
    }
  }

  lemma StartActs(p: Parser, ch: Byte, open: Option<Token>)
    requires GroupOf(p.state) == InStart && Fits(open, p.state)
    ensures ActsFit(p, StartSwitch(p, ch), open)
  {
    AllLists(open);
    hide ActsTo, MethodString, OtherMethod, FirstMethod, Lower;
  }

  lemma ResponseActs(p: Parser, ch: Byte, open: Option<Token>)
    requires GroupOf(p.state) == InResponse && Fits(open, p.state)
    ensures ActsFit(p, ResponseSwitch(p, ch), open)
  {
    hide ActsTo;
    AllLists(open);
  }

  lemma RequestActs(p: Parser, ch: Byte, open: Option<Token>)
    requires GroupOf(p.state) == InRequest && Fits(open, p.state)
    ensures ActsFit(p, RequestSwitch(p, ch), open)
  {
    hide ActsTo;
    AllLists(open);
  }

  lemma UrlActs(p: Parser, ch: Byte, open: Option<Token>)
    requires GroupOf(p.state) == InUrl && Fits(open, p.state)
    ensures ActsFit(p, UrlSwitch(p, ch), open)
  {
    hide UrlByte, ActsTo, ParseUrlChar, ParseServerChar, ParseQueryChar;
    AllLists(open);
    var q := if p.verb == CONNECT then p.(state := ReqServerStart) else p;
    if p.state == ReqSpacesBeforeUrl {
      UrlByteActs(q, ch, [Open(Url)], open);
    } else {
      UrlByteActs(p, ch, [], open);
    }
  }

  lemma UrlByteActs(p: Parser, ch: Byte, acts: seq<Act>, open: Option<Token>)
    requires (acts == [Open(Url)] && open == None) || (acts == [] && open == Some(Url))
    ensures ActsFit(p, UrlByte(p, ch, acts), open)
  {
    hide ParseUrlChar, ActsTo;
    AllLists(open);
    UrlStates(p.state, ch);
  }

  lemma HeaderActs(p: Parser, ch: Byte, open: Option<Token>)
    requires GroupOf(p.state) == InHeader && Fits(open, p.state)
    ensures ActsFit(p, HeaderSwitch(p, ch), open)
  {
    hide ActsTo, FieldSwitch, ValueStart, ValueByte, ActsFit;
    match p.state
    case HeaderValueStart => ValueStartActs(p, ch, open);
    case HeaderValue => ValueActs(p, ch, open);
    case HeaderAlmostDone => LineActs(p, ch, open);
    case HeaderValueLws => LineActs(p, ch, open);
    case _ => FieldActs(p, ch, open);
  }

  lemma FieldActs(p: Parser, ch: Byte, open: Option<Token>)
    requires (p.state == HeaderFieldStart || p.state == HeaderField) && Fits(open, p.state)
    ensures ActsFit(p, FieldSwitch(p, ch), open)
  {
    hide ActsTo, TokenOf, FieldByte;
    AllLists(open);
    FieldByteState(p, ch, TokenOf(ch));
  }

  lemma ValueStartActs(p: Parser, ch: Byte, open: Option<Token>)
    requires p.state == HeaderValueStart && Fits(open, p.state)
    ensures ActsFit(p, ValueStart(p, ch), open)
  {
    hide ActsTo, Lower, AppendDigit;
    AllLists(open);
  }

  lemma ValueActs(p: Parser, ch: Byte, open: Option<Token>)
    requires p.state == HeaderValue && Fits(open, p.state)
    ensures ActsFit(p, ValueByte(p, ch), open)
  {
    hide ActsTo, Lower, MatchByte, AppendDigit;
    AllLists(open);
    MatchByteState(p, Lower(ch));
  }

  lemma LineActs(p: Parser, ch: Byte, open: Option<Token>)
    requires (p.state == HeaderAlmostDone || p.state == HeaderValueLws) && Fits(open, p.state)
    ensures ActsFit(p, HeaderSwitch(p, ch), open)
  {
    hide ActsTo, FieldSwitch, ValueStart, ValueByte;
    AllLists(open);
  }

  lemma FieldByteState(p: Parser, ch: Byte, c: Byte)
    ensures var q := FieldByte(p, ch, c); q.Some? ==> q.value.state == p.state
  {
    hide MatchedName, AfterMatch;
  }

  lemma MatchByteState(p: Parser, c: Byte)
    ensures MatchByte(p, c).state == p.state
  {
    hide MatchedName, AfterMatch;
  }

  lemma EndActs(p: Parser, ch: Byte, skip: Answer, open: Option<Token>)
    requires GroupOf(p.state) == AtEnd && Fits(open, p.state)
    ensures ActsFit(p, EndSwitch(p, ch, skip), open)
  {
    hide ActsTo, ShouldKeepAlive, MessageNeedsEof;
    AllLists(open);
  }

  lemma ChunkActs(p: Parser, ch: Byte, open: Option<Token>)
    requires GroupOf(p.state) == InChunk && Fits(open, p.state)
    ensures ActsFit(p, ChunkSwitch(p, ch), open)
  {
    AllLists(open);
    hide ActsTo, Unhex;
  }

  lemma SwitchActs(p: Parser, ch: Byte, skip: Answer, open: Option<Token>)
    requires !Bulk(p.state) && Fits(open, p.state)
    ensures ActsFit(p, Switch(p, ch, skip), open)
  {
    hide StartSwitch, ResponseSwitch, RequestSwitch, UrlSwitch, HeaderSwitch, EndSwitch, ChunkSwitch, ActsFit, Fits;
    match GroupOf(p.state)
    case InStart => StartActs(p, ch, open);
    case InResponse => ResponseActs(p, ch, open);
    case InRequest => RequestActs(p, ch, open);
    case InUrl => UrlActs(p, ch, open);
    case InHeader => HeaderActs(p, ch, open);
    case AtEnd => EndActs(p, ch, skip, open);
    case InChunk => ChunkActs(p, ch, open);
    case InBody => DoneActs(p, ch, open);
  }

  lemma DoneActs(p: Parser, ch: Byte, open: Option<Token>)
    requires p.state == MessageDone && Fits(open, p.state)
    ensures ActsFit(p, BodySwitch(p, ch), open)
  {
    hide ActsTo, ShouldKeepAlive, MessageNeedsEof;
    AllLists(open);
  }

  // ---------- Bodies in bulk ----------

  /** One report a byte. */
  function BodyEvents(bytes: seq<Byte>): seq<Event> {
    if bytes == [] then [] else BodyEvents(bytes[..|bytes| - 1]) + [Data(Body, [bytes[|bytes| - 1]])]
  }

  lemma {:induction false} BodyMerge(pre: seq<Event>, bytes: seq<Byte>)
    requires bytes != []
    ensures Same(pre + BodyEvents(bytes), pre + [Data(Body, bytes)])
  {
    hide Merge, Same;
    var front, last := bytes[..|bytes| - 1], bytes[|bytes| - 1];
    assert bytes == front + [last];
    assert pre + BodyEvents(bytes) == pre + BodyEvents(front) + [Data(Body, [last])];
    if front == [] {
      assert pre + BodyEvents(bytes) == pre + [Data(Body, bytes)];
      SameSelf(pre + [Data(Body, bytes)]);
    } else {
      BodyMerge(pre, front);
      SameThen(pre + BodyEvents(front), pre + [Data(Body, front)], [Data(Body, [last])]);
      MergeCut(pre, Body, front, [last]);
      SameTrans(pre + BodyEvents(bytes), pre + [Data(Body, front)] + [Data(Body, [last])], pre + [Data(Body, bytes)]);
    }
  }

  lemma SameTrans(a: seq<Event>, b: seq<Event>, c: seq<Event>)
    requires (Same(a, b) || Same(b, a)) && (Same(b, c) || Same(c, b))
    ensures Same(a, c) && Same(c, a)
  {
  }

  /** A parser inside a body. */
  predicate BulkOk(p: Parser) {
    && Bulk(p.state)
    && (p.state != BodyIdentityEof ==> 0 < p.contentLength < ULLONG_MAX)
    && (p.state == ChunkData ==> p.flags.chunked)
  }

  lemma RestInBody(p: Parser)
    requires AtRest(p) && Bulk(p.state)
    ensures BulkOk(p)
  {
  }

  /** The parser after n more body bytes. */
  function Reading(p: Parser, n: nat): Parser
    requires p.state == BodyIdentityEof || n <= p.contentLength
  {
    if p.state == BodyIdentityEof then p
    else
      var q := p.(contentLength := p.contentLength - n);
      if q.contentLength > 0 then q
      else q.(state := if p.state == ChunkData then ChunkDataAlmostDone else MessageDone)
  }

  lemma BodyByte(p: Parser, ch: Byte, skip: Answer)
    requires BulkOk(p)
    ensures p.state == BodyIdentity && p.contentLength == 1 ==>
              OneByte(p, ch, skip) == Before([Data(Body, [ch])], Execute(Reading(p, 1), ch, skip))
    ensures !(p.state == BodyIdentity && p.contentLength == 1) ==>
              OneByte(p, ch, skip) == Run(Reading(p, 1), [Data(Body, [ch])], Running, 1)
  {
    hide Switch, ActEvents, NewMessage, GroupOf, Execute;
    BodyActs(ch);
    InBodySwitch(p, ch, skip);
    ExecuteIs(p, ch, skip);
  }

  lemma InBodySwitch(p: Parser, ch: Byte, skip: Answer)
    requires Bulk(p.state)
    ensures Switch(p, ch, skip) == BodySwitch(p, ch) && !ParsingHeader(p.state)
  {
    hide BodySwitch;
  }

  function Before(events: seq<Event>, r: Run): Run {
    r.(events := events + r.events)
  }

  lemma BodyActs(ch: Byte)
    ensures ActEvents([Open(Body)], ch) == [Data(Body, [ch])]
    ensures ActEvents([Open(Body), CloseWith(Body)], ch) == [Data(Body, [ch])]
  {
    assert [Open(Body)][1..] == [] && [CloseWith(Body)][1..] == [];
    assert [Open(Body), CloseWith(Body)][1..] == [CloseWith(Body)];
    assert ActEvents([CloseWith(Body)], ch) == [];
  }

  /** A stretch of body bytes that does not end an identity body. */
  lemma {:induction false} BulkRun(p: Parser, bytes: seq<Byte>, skip: Answer)
    requires BulkOk(p)
    requires p.state == BodyIdentity ==> |bytes| < p.contentLength
    requires p.state == ChunkData ==> |bytes| <= p.contentLength
    ensures Feed(p, bytes, skip) == Run(Reading(p, |bytes|), BodyEvents(bytes), Running, |bytes|)
    ensures Bulk(Reading(p, |bytes|).state) ==> BulkOk(Reading(p, |bytes|))
  {
    hide OneByte;
    if bytes != [] {
      var front := bytes[..|bytes| - 1];
      BulkRun(p, front, skip);
      BodyByte(Reading(p, |front|), bytes[|bytes| - 1], skip);
    }
  }

  // ---------- Performing acts ----------

  /** One act: the calls made and the open mark together say what the act means. */
  method PerformOne(act: Act, marks: Marks, data: seq<Byte>, p: nat, calls: seq<Event>, ghost open: Option<Token>)
    returns (marks': Marks, calls': seq<Event>, ghost open': Option<Token>)
    requires p < |data| && MarksAre(marks, open, p)
    requires match act
             case Open(k) => k != Body && open == None
             case CloseMark(k) => open == Some(k) || (k == Body && open == None)
             case CloseWith(_) => false
             case Notify(_) => open == None
    ensures open' == match act case Open(k) => Some(k) case _ => None
    ensures MarksAre(marks', open', p)
    ensures calls' + Pending(marks', open', data, p) == calls + Pending(marks, open, data, p) + ActEvent(act, data[p])
  {
    marks', calls', open' := marks, calls, open;
    match act
    case Open(k) =>
      if k !in marks {
        marks' := marks[k := p];
      }
      open' := Some(k);
      assert data[p..p] == [];
    case CloseMark(k) =>
      if k in marks {
        calls' := calls + [Data(k, data[marks[k]..p])];
        marks' := marks - {k};
      }
      open' := None;
      assert marks' == map[];
    case CloseWith(_) =>
      assert false;
    case Notify(n) =>
      calls' := calls + [Signal(n)];
      open' := None;
  }

  method Perform(acts: seq<Act>, marks: Marks, data: seq<Byte>, p: nat, calls: seq<Event>, ghost open: Option<Token>, ghost target: Option<Token>)
    returns (marks': Marks, calls': seq<Event>)
    requires p < |data| && MarksAre(marks, open, p) && ActsTo(open, acts, target)
    ensures MarksAre(marks', target, p)
    ensures calls' + Pending(marks', target, data, p) == calls + Pending(marks, open, data, p) + ActEvents(acts, data[p])
    decreases |acts|
  {
    marks', calls' := marks, calls;
    if acts != [] {
      assert ActEvents(acts, data[p]) == ActEvent(acts[0], data[p]) + ActEvents(acts[1..], data[p]);
      hide ActEvents, ActEvent, Pending, MarksAre;
      ghost var now;
      marks', calls', now := PerformOne(acts[0], marks, data, p, calls, open);
      marks', calls' := Perform(acts[1..], marks', data, p, calls', now, target);
    }
  }

  // ---------- The loop ----------

  /** Between bytes: the byte-by-byte run over what has been read agrees. */
  ghost predicate InStep(start: Parser, skip: Answer, data: seq<Byte>, p: nat, parser: Parser, marks: Marks, open: Option<Token>, calls: seq<Event>) {
    && p <= |data| && MarksAre(marks, open, p)
    && AtRest(parser) && Fits(open, parser.state) && (Bulk(parser.state) && p < |data| ==> open == None)
    && var so := Feed(start, data[..p], skip);
       && so == Run(parser, so.events, Running, p)
       && Same(calls + Pending(marks, open, data, p), so.events + Lead(parser.state))
       && (p > 0 ==> Same(so.events + Lead(parser.state), so.events))
       && (p == 0 ==> calls == [])
  }

  /** While byte p is executed: its run is what it has done so far, and the rest. */
  ghost predicate InByte(start: Parser, skip: Answer, data: seq<Byte>, p: nat, parser: Parser, marks: Marks, open: Option<Token>, calls: seq<Event>,
                         part: seq<Event>) {
    && p < |data| && MarksAre(marks, open, p)
    && Busy(parser) && Fits(open, parser.state)
    && var so := Feed(start, data[..p], skip);
       && so.status == Running && so.used == p
       && OneByte(so.p, data[p], skip) == Before(part, Execute(parser, data[p], skip))
       && Same(calls + Pending(marks, open, data, p), so.events + part + Lead(parser.state))
  }

  /** How a call ends: what was consumed, the error, and the calls made. */
  ghost predicate Ends(r: Run, parser: Parser, errno: Option<Errno>, used: nat, calls: seq<Event>, pending: seq<Event>) {
    && r.p == parser && used == r.used && Same(calls + pending, r.events)
    && match r.status
       case Running => errno == None && pending == []
       case Left => errno == None && pending == []
       case Failed(e) => errno == Some(e)
       case Crashed => false
  }

  lemma FeedNext(start: Parser, skip: Answer, data: seq<Byte>, p: nat)
    requires p < |data| && Feed(start, data[..p], skip).status == Running
    ensures var so := Feed(start, data[..p], skip);
            Feed(start, data[..p + 1], skip) == Then(so, OneByte(so.p, data[p], skip))
  {
    hide OneByte;
    assert data[..p + 1][..p] == data[..p];
  }

  /** A run that has stopped does not go on. */
  lemma FeedStopped(start: Parser, skip: Answer, data: seq<Byte>, p: nat)
    requires p <= |data| && Feed(start, data[..p], skip).status != Running
    ensures Feed(start, data, skip) == Feed(start, data[..p], skip)
  {
    FeedSplit(start, data[..p], data[p..], skip);
    assert data[..p] + data[p..] == data;
  }

  lemma CountedByte(start: Parser, skip: Answer, data: seq<Byte>, p: nat, parser: Parser, marks: Marks, open: Option<Token>, calls: seq<Event>)
    requires InStep(start, skip, data, p, parser, marks, open, calls) && p < |data| && !Bulk(parser.state)
    ensures var q := if ParsingHeader(parser.state) then parser.(nread := parser.nread + 1) else parser;
            if ParsingHeader(parser.state) && q.nread > HTTP_MAX_HEADER_SIZE then
              OneByte(parser, data[p], skip) == Run(q, [], Failed(HeaderOverflow), 0)
            else InByte(start, skip, data, p, q, marks, open, calls, [])
  {
    hide Execute, Same, Pending, Lead, Feed, MarksAre;
    var so := Feed(start, data[..p], skip);
    var q := if ParsingHeader(parser.state) then parser.(nread := parser.nread + 1) else parser;
    BeforeNothing(Execute(q, data[p], skip));
    assert so.events + [] == so.events;
    BusyAfterCount(parser);
  }

  lemma BusyAfterCount(p: Parser)
    requires AtRest(p) && !Bulk(p.state)
    ensures var q := if ParsingHeader(p.state) then p.(nread := p.nread + 1) else p;
            q.nread <= HTTP_MAX_HEADER_SIZE ==> Busy(q)
  {
  }

  lemma BeforeNothing(r: Run)
    ensures Before([], r) == r
  {
  }

  /** The switch has run and its acts are performed: what every way to go on needs. */
  ghost predicate Performed(start: Parser, skip: Answer, data: seq<Byte>, p: nat, parser: Parser, marks: Marks, open: Option<Token>, calls: seq<Event>,
                            part: seq<Event>, marks': Marks, open': Option<Token>, calls': seq<Event>) {
    && InByte(start, skip, data, p, parser, marks, open, calls, part)
    && MarksAre(marks', open', p)
    && calls' + Pending(marks', open', data, p) ==
       calls + Pending(marks, open, data, p) + ActEvents(Switch(parser, data[p], skip).acts, data[p])
  }

  lemma PerformedCalls(start: Parser, skip: Answer, data: seq<Byte>, p: nat, parser: Parser, marks: Marks, open: Option<Token>, calls: seq<Event>,
                       part: seq<Event>, marks': Marks, open': Option<Token>, calls': seq<Event>)
    requires Performed(start, skip, data, p, parser, marks, open, calls, part, marks', open', calls')
    ensures var so := Feed(start, data[..p], skip);
            var part' := part + (Lead(parser.state) + ActEvents(Switch(parser, data[p], skip).acts, data[p]));
            Same(calls' + Pending(marks', open', data, p), so.events + part')
  {
    hide AtRest, Busy, Fits;
    hide Switch, Same, Pending, OneByte, Execute, Core, ActEvents, ActsTo, MarksAre, Feed, Lead;
    var so := Feed(start, data[..p], skip);
    var acts := ActEvents(Switch(parser, data[p], skip).acts, data[p]);
    SameThen(calls + Pending(marks, open, data, p), so.events + part + Lead(parser.state), acts);
    assert so.events + part + Lead(parser.state) + acts == so.events + (part + (Lead(parser.state) + acts));
  }

  lemma ExecuteIs(p: Parser, ch: Byte, skip: Answer)
    ensures var o := Switch(p, ch, skip);
            var events := Lead(p.state) + ActEvents(o.acts, ch);
            match o.next
            case Done => Execute(p, ch, skip) == Run(o.p, events + Trail(o.p.state, ch), Running, 1)
            case Again => Execute(p, ch, skip) == Before(events, Execute(o.p, ch, skip))
            case Fail(e) => Execute(p, ch, skip) == Run(o.p, events, Failed(e), 0)
            case Leave => Execute(p, ch, skip) == Run(o.p, events, Left, 1)
            case Broken => true
  {
    hide Switch, Lead, Trail, ActEvents, Rank;
  }

  lemma BeforeBefore(a: seq<Event>, b: seq<Event>, r: Run)
    ensures Before(a, Before(b, r)) == Before(a + b, r)
  {
    assert a + (b + r.events) == a + b + r.events;
  }

  lemma AgainStep(start: Parser, skip: Answer, data: seq<Byte>, p: nat, parser: Parser, marks: Marks, open: Option<Token>, calls: seq<Event>,
                  part: seq<Event>, marks': Marks, open': Option<Token>, calls': seq<Event>)
    requires Performed(start, skip, data, p, parser, marks, open, calls, part, marks', open', calls')
    requires Switch(parser, data[p], skip).next == Again && open' == TokenState(Switch(parser, data[p], skip).p.state)
    ensures InByte(start, skip, data, p, Switch(parser, data[p], skip).p, marks', open', calls',
                   part + (Lead(parser.state) + ActEvents(Switch(parser, data[p], skip).acts, data[p])))
    ensures Rank(Switch(parser, data[p], skip).p.state) < Rank(parser.state)
  {
    hide Same, Pending, OneByte, Core, Feed, ActEvents, MarksAre, Rank;
    PerformedCalls(start, skip, data, p, parser, marks, open, calls, part, marks', open', calls');
    SwitchOk(parser, data[p], skip);
    AgainDescends(parser, data[p], skip);
    ExecuteIs(parser, data[p], skip);
    var o := Switch(parser, data[p], skip);
    var events := Lead(parser.state) + ActEvents(o.acts, data[p]);
    BeforeBefore(part, events, Execute(o.p, data[p], skip));
    assert Lead(o.p.state) == [];
    hide Switch, Same, Pending, OneByte, Execute, Core, ActEvents, MarksAre, Feed, Lead, TokenState, Rank;
    var so := Feed(start, data[..p], skip);
    assert so.events + (part + events) + [] == so.events + (part + events);
  }

  /** The byte is consumed; an open token grows by it. */
  lemma GrowPending(marks: Marks, open: Option<Token>, data: seq<Byte>, p: nat, calls: seq<Event>, events: seq<Event>, s: State)
    requires p < |data| && MarksAre(marks, open, p) && open == TokenState(s)
    requires Same(calls + Pending(marks, open, data, p), events)
    ensures Same(calls + Pending(marks, open, data, p + 1), events + Trail(s, data[p]) + Lead(s))
    ensures Same(events + Trail(s, data[p]) + Lead(s), events + Trail(s, data[p]))
  {
    hide Merge, Same;
    var trail := Trail(s, data[p]);
    match open
    case None =>
      assert events + trail + Lead(s) == events && events + trail == events;
      assert Pending(marks, open, data, p + 1) == Pending(marks, open, data, p);
      SameSelf(events);
    case Some(k) =>
      var x, y := data[marks[k]..p], [data[p]];
      assert data[marks[k]..p + 1] == x + y;
      MergeCut(calls, k, x, y);
      SameThen(calls + [Data(k, x)], events, [Data(k, y)]);
      SameTrans(calls + [Data(k, x + y)], calls + [Data(k, x)] + [Data(k, y)], events + trail);
      MergeCut(events, k, y, []);
      assert y + [] == y;
      SameTrans(calls + [Data(k, x + y)], events + trail, events + trail + Lead(s));
      SameSelf(events + trail);
      SameTrans(events + trail + Lead(s), events + trail, events + trail);
  }

  /** The run over one more byte, by how its last execution went on. */
  lemma ByteRun(start: Parser, skip: Answer, data: seq<Byte>, p: nat, parser: Parser, part: seq<Event>)
    requires p < |data|
    requires var so := Feed(start, data[..p], skip);
             so.status == Running && so.used == p && OneByte(so.p, data[p], skip) == Before(part, Execute(parser, data[p], skip))
    ensures var so, r, o := Feed(start, data[..p], skip), Feed(start, data[..p + 1], skip), Switch(parser, data[p], skip);
            var events := so.events + (part + (Lead(parser.state) + ActEvents(o.acts, data[p])));
            match o.next
            case Done => r == Run(o.p, events + Trail(o.p.state, data[p]), Running, p + 1)
            case Fail(e) => r == Run(o.p, events, Failed(e), p)
            case Leave => r == Run(o.p, events, Left, p + 1)
            case _ => true
  {
    ExecuteIs(parser, data[p], skip);
    FeedNext(start, skip, data, p);
    hide Switch, OneByte, Execute, ActEvents, Feed, Lead, Trail;
    var so, o := Feed(start, data[..p], skip), Switch(parser, data[p], skip);
    var events := Lead(parser.state) + ActEvents(o.acts, data[p]);
    var trail := Trail(o.p.state, data[p]);
    Regroup(so.events, part, events, trail);
  }

  lemma Regroup(a: seq<Event>, b: seq<Event>, c: seq<Event>, d: seq<Event>)
    ensures a + (b + (c + d)) == a + (b + c) + d
  {
  }

  lemma DoneStep(start: Parser, skip: Answer, data: seq<Byte>, p: nat, parser: Parser, marks: Marks, open: Option<Token>, calls: seq<Event>,
                 part: seq<Event>, marks': Marks, open': Option<Token>, calls': seq<Event>)
    requires Performed(start, skip, data, p, parser, marks, open, calls, part, marks', open', calls')
    requires Switch(parser, data[p], skip).next == Done && open' == TokenState(Switch(parser, data[p], skip).p.state)
    ensures InStep(start, skip, data, p + 1, Switch(parser, data[p], skip).p, marks', open', calls')
  {
    hide Same, OneByte, Core, Feed, ActEvents, AtRest, Busy;
    PerformedCalls(start, skip, data, p, parser, marks, open, calls, part, marks', open', calls');
    SwitchOk(parser, data[p], skip);
    ByteRun(start, skip, data, p, parser, part);
    var so := Feed(start, data[..p], skip);
    var o := Switch(parser, data[p], skip);
    GrowPending(marks', open', data, p, calls', so.events + (part + (Lead(parser.state) + ActEvents(o.acts, data[p]))), o.p.state);
    LongerMark(marks', open', p);
    NoTokenInBody(o.p.state);
    hide Switch, Same, Pending, OneByte, Execute, Core, ActEvents, Feed, Lead, Trail, TokenState, Performed, MarksAre;
  }

  lemma NoTokenInBody(s: State)
    ensures Bulk(s) ==> TokenState(s) == None && Lead(s) == []
  {
  }

  lemma LongerMark(marks: Marks, open: Option<Token>, p: nat)
    requires MarksAre(marks, open, p)
    ensures MarksAre(marks, open, p + 1)
  {
  }

  lemma StopStep(start: Parser, skip: Answer, data: seq<Byte>, p: nat, parser: Parser, marks: Marks, open: Option<Token>, calls: seq<Event>,
                 part: seq<Event>, marks': Marks, open': Option<Token>, calls': seq<Event>)
    requires Performed(start, skip, data, p, parser, marks, open, calls, part, marks', open', calls')
    ensures var o := Switch(parser, data[p], skip);
            match o.next
            case Fail(e) => Ends(Feed(start, data, skip), o.p, Some(e), p, calls', Pending(marks', open', data, p))
            case Leave => open' == None ==> Ends(Feed(start, data, skip), o.p, None, p + 1, calls', [])
            case _ => true
  {
    hide Same, OneByte, Core, Feed, ActEvents, AtRest, Busy, Fits;
    PerformedCalls(start, skip, data, p, parser, marks, open, calls, part, marks', open', calls');
    ByteRun(start, skip, data, p, parser, part);
    var o := Switch(parser, data[p], skip);
    if o.next.Fail? || o.next == Leave { FeedStopped(start, skip, data, p + 1); }
    assert open' == None ==> Pending(marks', open', data, p) == [];
    hide Switch, Same, Pending, OneByte, Execute, Core, ActEvents, Feed, Lead, MarksAre, Performed;
  }

  // ---------- The body in the loop ----------

  /** Part of a body has been read, and more is to come or a chunk is complete. */
  lemma BodyStep(start: Parser, skip: Answer, data: seq<Byte>, p: nat, parser: Parser, marks: Marks, calls: seq<Event>, n: nat)
    requires InStep(start, skip, data, p, parser, marks, None, calls) && Bulk(parser.state) && 1 <= n && p + n <= |data|
    requires parser.state == BodyIdentity ==> n < parser.contentLength && p + n == |data|
    requires parser.state == ChunkData ==> n <= parser.contentLength && (n < parser.contentLength ==> p + n == |data|)
    requires parser.state == BodyIdentityEof ==> p + n == |data|
    ensures InStep(start, skip, data, p + n, Reading(parser, n), map[Body := p], Some(Body), calls)
  {
    hide Same, Feed, Core, Merge, BodyEvents, TokenState, AtRest, Fits;
    var so := Feed(start, data[..p], skip);
    var q := Reading(parser, n);
    FeedBody(start, skip, data, p, parser, n);
    ReadingRests(parser, n);
    NoTokenInBody(parser.state);
    BodyCalls(calls, so.events, data[p..p + n], q.state);
    assert calls + Pending(marks, None, data, p) == calls;
    assert so.events + Lead(parser.state) == so.events;
  }

  lemma FeedBody(start: Parser, skip: Answer, data: seq<Byte>, p: nat, parser: Parser, n: nat)
    requires p + n <= |data| && AtRest(parser) && Bulk(parser.state)
    requires parser.state == BodyIdentity ==> n < parser.contentLength
    requires parser.state == ChunkData ==> n <= parser.contentLength
    requires var so := Feed(start, data[..p], skip); so == Run(parser, so.events, Running, p)
    ensures Feed(start, data[..p + n], skip) ==
            Run(Reading(parser, n), Feed(start, data[..p], skip).events + BodyEvents(data[p..p + n]), Running, p + n)
    ensures Bulk(Reading(parser, n).state) ==> BulkOk(Reading(parser, n))
  {
    hide Core;
    RestInBody(parser);
    BulkRun(parser, data[p..p + n], skip);
    hide Feed, BodyEvents, AtRest, Reading;
    FeedSplit(start, data[..p], data[p..p + n], skip);
    Prefixes(data, p, n);
  }

  lemma Prefixes(data: seq<Byte>, p: nat, n: nat)
    requires p + n <= |data|
    ensures data[..p] + data[p..p + n] == data[..p + n]
    ensures n > 0 ==> data[p..p + n][..n - 1] == data[p..p + n - 1]
  {
  }

  /** Reporting the bytes at once or one by one. */
  lemma BodyCalls(calls: seq<Event>, events: seq<Event>, bytes: seq<Byte>, s: State)
    requires bytes != []
    ensures Same(calls, events) ==> Same(calls + [Data(Body, bytes)], events + BodyEvents(bytes))
    ensures TokenState(s) == None ==>
              Lead(s) == [] && events + BodyEvents(bytes) + Lead(s) == events + BodyEvents(bytes)
              && Same(events + BodyEvents(bytes) + Lead(s), events + BodyEvents(bytes))
  {
    hide Same, Merge, BodyEvents;
    BodyMerge(events, bytes);
    if Same(calls, events) {
      SameThen(calls, events, [Data(Body, bytes)]);
      SameTrans(calls + [Data(Body, bytes)], events + [Data(Body, bytes)], events + BodyEvents(bytes));
    }
    SameSelf(events + BodyEvents(bytes));
  }

  lemma ReadingRests(p: Parser, n: nat)
    requires AtRest(p) && Bulk(p.state)
    requires p.state == BodyIdentityEof || n <= p.contentLength
    ensures AtRest(Reading(p, n)) && Fits(Some(Body), if p.state == BodyIdentity then BodyIdentity else Reading(p, n).state)
    ensures TokenState(Reading(p, n).state) == None
    ensures p.state == BodyIdentity && n == p.contentLength ==> Busy(Reading(p, n)) && Fits(None, Reading(p, n).state)
  {
  }

  /** What is known where a body is read. */
  lemma BodyFacts(start: Parser, skip: Answer, data: seq<Byte>, p: nat, parser: Parser, marks: Marks, calls: seq<Event>)
    requires InStep(start, skip, data, p, parser, marks, None, calls)
    ensures p <= |data| && marks == map[] && AtRest(parser)
    ensures var so := Feed(start, data[..p], skip);
            so == Run(parser, so.events, Running, p) && Same(calls + [], so.events + Lead(parser.state))
  {
    hide Same, Feed, Lead, AtRest, Fits;
  }

  /** The last byte of a body of known length: the message is done with the same byte. */
  lemma BodyEnd(start: Parser, skip: Answer, data: seq<Byte>, p: nat, parser: Parser, marks: Marks, calls: seq<Event>, n: nat)
    requires InStep(start, skip, data, p, parser, marks, None, calls) && parser.state == BodyIdentity
    requires 1 <= n == parser.contentLength && p + n <= |data|
    ensures InByte(start, skip, data, p + n - 1, Reading(parser, n), map[], None, calls + [Data(Body, data[p..p + n])],
                   [Data(Body, [data[p + n - 1]])])
  {
    hide Same, Feed, Merge, Execute, OneByte, BodyEvents, TokenState, AtRest, Fits, Busy, InStep, InByte, Lead, Reading, Before, BulkOk;
    BodyFacts(start, skip, data, p, parser, marks, calls);
    var so := Feed(start, data[..p], skip);
    var bytes := data[p..p + n];
    FeedBody(start, skip, data, p, parser, n - 1);
    ReadingRests(parser, n);
    DoneReading(parser);
    LastByte(parser, data[p + n - 1], skip, n);
    Prefixes(data, p, n);
    NoTokenInBody(parser.state);
    Zero(calls);
    Zero(so.events);
    BodyEndCalls(calls, so.events, bytes);
    AtLastByte(start, skip, data, p + n - 1, Reading(parser, n), calls + [Data(Body, bytes)], [Data(Body, [data[p + n - 1]])]);
  }

  lemma DoneReading(p: Parser)
    requires p.state == BodyIdentity
    ensures Reading(p, p.contentLength).state == MessageDone
  {
  }

  lemma AtLastByte(start: Parser, skip: Answer, data: seq<Byte>, q: nat, parser: Parser, calls: seq<Event>, part: seq<Event>)
    requires q < |data| && Busy(parser) && Fits(None, parser.state)
    requires var so := Feed(start, data[..q], skip);
             so.status == Running && so.used == q && OneByte(so.p, data[q], skip) == Before(part, Execute(parser, data[q], skip))
             && Same(calls + [], so.events + part + Lead(parser.state))
    ensures InByte(start, skip, data, q, parser, map[], None, calls, part)
  {
    hide Same, Feed, Execute, OneByte, Fits, Busy, Lead;
  }

  lemma BodyEndCalls(calls: seq<Event>, events: seq<Event>, bytes: seq<Byte>)
    requires bytes != [] && Same(calls, events)
    ensures Same(calls + [Data(Body, bytes)] + [],
                 events + BodyEvents(bytes[..|bytes| - 1]) + [Data(Body, [bytes[|bytes| - 1]])] + Lead(MessageDone))
  {
    hide Same, BodyEvents;
    BodyCalls(calls, events, bytes, MessageDone);
    BodySnoc(events, bytes);
    Zero(calls + [Data(Body, bytes)]);
    Zero(events + BodyEvents(bytes[..|bytes| - 1]) + [Data(Body, [bytes[|bytes| - 1]])]);
  }

  lemma Zero(events: seq<Event>)
    ensures events + [] == events
  {
  }

  lemma LastByte(parser: Parser, ch: Byte, skip: Answer, n: nat)
    requires AtRest(parser) && parser.state == BodyIdentity && 1 <= n == parser.contentLength
    ensures OneByte(Reading(parser, n - 1), ch, skip) == Before([Data(Body, [ch])], Execute(Reading(parser, n), ch, skip))
  {
    hide OneByte, Execute;
    BodyByte(Reading(parser, n - 1), ch, skip);
    assert Reading(Reading(parser, n - 1), 1) == Reading(parser, n);
  }

  lemma {:induction false} BodySnoc(events: seq<Event>, bytes: seq<Byte>)
    requires bytes != []
    ensures events + BodyEvents(bytes) == events + BodyEvents(bytes[..|bytes| - 1]) + [Data(Body, [bytes[|bytes| - 1]])]
  {
  }

  // ---------- The parser ----------

  class HttpParser {
    var parser: Parser
    var errno: Option<Errno>

    constructor (kind: Type)
      ensures parser == Init(kind) && errno == None
    {
      parser, errno := Init(kind), None;
    }

    /** Reads as much of the body as the buffer holds.  If that ends a body of known length,
        the last byte is executed again. */
    method ReadBody(ghost start: Parser, ghost skip: Answer, data: seq<Byte>, p: nat, marks: Marks, calls: seq<Event>)
      returns (p': nat, marks': Marks, calls': seq<Event>, again: bool)
      requires InStep(start, skip, data, p, parser, marks, None, calls) && p < |data| && Bulk(parser.state)
      modifies `parser
      ensures p <= p' < |data|
      ensures again ==> InByte(start, skip, data, p', parser, marks', None, calls', [Data(Body, [data[p']])]) && !Bulk(parser.state)
      ensures !again ==> InStep(start, skip, data, p' + 1, parser, marks', Some(Body), calls')
    {
      hide Core, Same, Feed, Fits, Lead, Pending, Execute, OneByte, InStep, InByte, AtRest;
      BodyFacts(start, skip, data, p, parser, marks, calls);
      RestInBody(parser);
      calls', again := calls, false;
      marks' := if Body in marks then marks else marks[Body := p];
      assert marks' == map[Body := p];
      if parser.state == BodyIdentityEof {
        BodyStep(start, skip, data, p, parser, marks, calls, |data| - p);
        p' := |data| - 1;
        return;
      }
      var toRead := if parser.contentLength <= |data| - p then parser.contentLength else |data| - p;
      if parser.state == BodyIdentity && toRead == parser.contentLength {
        BodyEnd(start, skip, data, p, parser, marks, calls, toRead);
      } else {
        BodyStep(start, skip, data, p, parser, marks, calls, toRead);
      }
      var was := parser.state;
      parser := parser.(contentLength := parser.contentLength - toRead);
      p' := p + toRead - 1;
      if parser.contentLength == 0 {
        if was == BodyIdentity {
          parser := parser.(state := MessageDone);
          calls' := calls + [Data(Body, data[marks'[Body]..p' + 1])];
          marks' := map[];
          again := true;
        } else {
          parser := parser.(state := ChunkDataAlmostDone);
        }
      }
    }

    /** One execution of the byte at p, with its acts. */
    method ExecuteOnce(ghost start: Parser, skip: Answer, data: seq<Byte>, p: nat, marks: Marks, calls: seq<Event>, ghost open: Option<Token>, ghost part: seq<Event>)
      returns (marks': Marks, calls': seq<Event>, next: Next, ghost open': Option<Token>, ghost part': seq<Event>, ghost pending: seq<Event>)
      requires InByte(start, skip, data, p, parser, marks, open, calls, part) && !Bulk(parser.state)
      modifies `parser
      ensures Executed(start, skip, data, p, parser, marks', open', calls', part', next, pending)
      ensures next == Again ==> Rank(parser.state) < Rank(old(parser.state))
    {
      hide Core, Same, Feed, Fits, Lead, Pending, Execute, OneByte, Switch, ActEvents, ActsTo, Rank, Ends, MarksAre, TokenState, Busy, Executed;
      var o := Switch(parser, data[p], skip);
      open' := Target(start, parser, data, p, skip, marks, open, calls, part);
      marks', calls' := Perform(o.acts, marks, data, p, calls, open, open');
      part' := part + (Lead(parser.state) + ActEvents(o.acts, data[p]));
      pending := Pending(marks', open', data, p);
      AfterActs(start, skip, data, p, parser, marks, open, calls, part, marks', open', calls');
      parser, next := o.p, o.next;
    }

    /** Executes the byte at p, again and again until it is consumed or the call ends. */
    method ExecuteByte(ghost start: Parser, skip: Answer, data: seq<Byte>, p: nat, marks: Marks, calls: seq<Event>, ghost open: Option<Token>, ghost part: seq<Event>)
      returns (marks': Marks, calls': seq<Event>, next: Next, ghost open': Option<Token>, ghost pending: seq<Event>)
      requires InByte(start, skip, data, p, parser, marks, open, calls, part) && !Bulk(parser.state)
      modifies `parser
      ensures next != Again && Executed(start, skip, data, p, parser, marks', open', calls', [], next, pending)
    {
      hide Rank, InByte, InStep, Ends;
      marks', calls', next, open', pending := marks, calls, Again, open, [];
      ghost var part' := part;
      while next == Again
        invariant Executed(start, skip, data, p, parser, marks', open', calls', part', next, pending)
        decreases if next == Again then 1 + Rank(parser.state) else 0
      {
        marks', calls', next, open', part', pending := ExecuteOnce(start, skip, data, p, marks', calls', open', part');
      }
    }

    /** http_parser_execute.  skip is what on_headers_complete answers for
        each message; the other callbacks
        return 0.  `pending` is the data of an open mark, which an error does not report. */
    method Parse(data: seq<Byte>, skip: Answer) returns (used: nat, calls: seq<Event>, ghost pending: seq<Event>)
      requires errno == None ==> AtRest(parser)
      modifies this
      ensures old(errno) != None ==> used == 0 && calls == [] && parser == old(parser) && errno == old(errno)
      ensures old(errno) == None && data != [] ==> Ends(Feed(old(parser), data, skip), parser, errno, used, calls, pending)
      ensures old(errno) == None && data == [] ==>
                parser == old(parser) && errno == EofError(parser.state) && used == (if errno == None then 0 else 1)
                && calls == if parser.state == BodyIdentityEof then [Signal(MessageComplete)] else []
      ensures errno == None ==> AtRest(parser)
    {
      hide AtRest, Ends, InStep, InByte, Executed, OneByte, Execute, Rank, Same, TokenState;
      calls, pending := [], [];
      if errno != None {
        return 0, calls, pending;
      }
      if data == [] {
        errno := EofError(parser.state);
        return if errno == None then 0 else 1, if parser.state == BodyIdentityEof then [Signal(MessageComplete)] else [], pending;
      }
      NeverCrashes(parser, data, skip);
      used, calls, pending := ParseBytes(data, skip);
      EndsAtRest(Feed(old(parser), data, skip), parser, errno, used, calls, pending);
    }

    /** Counts the byte at p towards the size of the headers. */
    method Count(ghost start: Parser, ghost skip: Answer, data: seq<Byte>, p: nat, ghost marks: Marks, ghost calls: seq<Event>, ghost open: Option<Token>)
      returns (over: bool, ghost pending: seq<Event>)
      requires InStep(start, skip, data, p, parser, marks, open, calls) && p < |data| && !Bulk(parser.state) && errno == None
      modifies this
      ensures over ==> Ends(Feed(start, data, skip), parser, errno, p, calls, pending)
      ensures !over ==> InByte(start, skip, data, p, parser, marks, open, calls, []) && !Bulk(parser.state) && errno == None
    {
      hide AtRest, Ends, InStep, InByte, OneByte, Execute, Same, TokenState, Feed, Lead, Pending;
      over, pending := false, [];
      CountedByte(start, skip, data, p, parser, marks, open, calls);
      ghost var before := parser;
      if ParsingHeader(parser.state) {
        parser := parser.(nread := parser.nread + 1);
        if parser.nread > HTTP_MAX_HEADER_SIZE {
          errno := Some(HeaderOverflow);
          over := true;
          pending := Overflow(start, skip, data, p, before, parser, marks, open, calls);
        }
      }
    }

    /** One turn of the loop, from the byte at p on: where the next one starts, unless the
        call ends. */
    method Turn(ghost start: Parser, skip: Answer, data: seq<Byte>, p: nat, marks: Marks, calls: seq<Event>, ghost open: Option<Token>)
      returns (ended: bool, p': nat, marks': Marks, calls': seq<Event>, ghost open': Option<Token>, ghost pending: seq<Event>)
      requires InStep(start, skip, data, p, parser, marks, open, calls) && p < |data| && errno == None
      modifies this
      ensures !ended ==> p < p' <= |data| && InStep(start, skip, data, p', parser, marks', open', calls') && errno == None
      ensures ended ==> Ends(Feed(start, data, skip), parser, errno, p', calls', pending)
    {
      hide AtRest, Ends, InStep, InByte, Executed, OneByte, Execute, Rank, Same, TokenState, Feed, Lead, Pending;
      ended, p', marks', calls', open', pending := false, p, marks, calls, open, [];
      if Bulk(parser.state) {
        var again;
        open' := NoMarkInBody(start, skip, data, p, parser, marks, open, calls);
        p', marks', calls', again := ReadBody(start, skip, data, p, marks, calls);
        if !again {
          return false, p' + 1, marks', calls', Some(Body), [];
        }
        ended, p', marks', calls', open', pending := Rest(start, skip, data, p', marks', calls', None, [Data(Body, [data[p']])]);
        return;
      }
      var over;
      over, pending := Count(start, skip, data, p, marks, calls, open);
      if over {
        return true, p, marks, calls, open, pending;
      }
      ended, p', marks', calls', open', pending := Rest(start, skip, data, p, marks, calls, open, []);
    }

    /** The rest of a turn: executes the byte at p. */
    method Rest(ghost start: Parser, skip: Answer, data: seq<Byte>, p: nat, marks: Marks, calls: seq<Event>, ghost open: Option<Token>, ghost part: seq<Event>)
      returns (ended: bool, p': nat, marks': Marks, calls': seq<Event>, ghost open': Option<Token>, ghost pending: seq<Event>)
      requires InByte(start, skip, data, p, parser, marks, open, calls, part) && !Bulk(parser.state) && p < |data| && errno == None
      modifies this
      ensures !ended ==> p < p' <= |data| && InStep(start, skip, data, p', parser, marks', open', calls') && errno == None
      ensures ended ==> Ends(Feed(start, data, skip), parser, errno, p', calls', pending)
    {
      hide AtRest, Ends, InStep, InByte, Executed, OneByte, Execute, Rank, Same, TokenState, Feed, Lead, Pending;
      var next;
      marks', calls', next, open', pending := ExecuteByte(start, skip, data, p, marks, calls, open, part);
      ExecutedIs(start, skip, data, p, parser, marks', open', calls', [], next, pending);
      match next
      case Fail(e) =>
        errno := Some(e);
        ended, p' := true, p;
      case Leave =>
        pending := [];
        ended, p' := true, p + 1;
      case Done =>
        ended, p' := false, p + 1;
      case _ =>
        assert false;
    }

    /** The loop over the bytes, and the calls for the mark left open. */
    method ParseBytes(data: seq<Byte>, skip: Answer) returns (used: nat, calls: seq<Event>, ghost pending: seq<Event>)
      requires errno == None && AtRest(parser) && data != []
      modifies this
      ensures Ends(Feed(old(parser), data, skip), parser, errno, used, calls, pending)
    {
      hide AtRest, Ends, InStep, InByte, Feed;
      ghost var start := parser;
      calls, pending := [], [];
      var marks: Marks;
      ghost var open;
      marks, open := InitialMarks(parser, skip, data);
      var p := 0;
      while p < |data|
        invariant 0 <= p <= |data| && InStep(start, skip, data, p, parser, marks, open, calls) && errno == None
        decreases |data| - p
      {
        var ended;
        ended, p, marks, calls, open, pending := Turn(start, skip, data, p, marks, calls, open);
        if ended {
          return p, calls, pending;
        }
      }
      pending := [];
      calls := Flush(start, skip, data, parser, marks, open, calls);
      used := |data|;
    }
  }

  /** What an empty buffer, the end of the connection, means. */
  function EofError(s: State): Option<Errno> {
    if s == BodyIdentityEof || s == Dead || s == StartReqOrRes || s == StartRes || s == StartReq then None else Some(InvalidEofState)
  }

  /** Where the execution of byte p has got to. */
  ghost predicate Executed(start: Parser, skip: Answer, data: seq<Byte>, p: nat, parser: Parser, marks: Marks, open: Option<Token>, calls: seq<Event>,
                           part: seq<Event>, next: Next, pending: seq<Event>) {
    match next
    case Again => InByte(start, skip, data, p, parser, marks, open, calls, part) && !Bulk(parser.state)
    case Done => InStep(start, skip, data, p + 1, parser, marks, open, calls)
    case Fail(e) => Ends(Feed(start, data, skip), parser, Some(e), p, calls, pending)
    case Leave => Ends(Feed(start, data, skip), parser, None, p + 1, calls, [])
    case Broken => false
  }

  lemma AfterActs(start: Parser, skip: Answer, data: seq<Byte>, p: nat, parser: Parser, marks: Marks, open: Option<Token>, calls: seq<Event>,
                  part: seq<Event>, marks': Marks, open': Option<Token>, calls': seq<Event>)
    requires p < |data|
    requires Performed(start, skip, data, p, parser, marks, open, calls, part, marks', open', calls')
    requires var o := Switch(parser, data[p], skip);
             o.next != Broken && (!o.next.Fail? ==> open' == TokenState(o.p.state)) && (o.next == Leave ==> open' == None)
    ensures var o := Switch(parser, data[p], skip);
            Executed(start, skip, data, p, o.p, marks', open', calls', part + (Lead(parser.state) + ActEvents(o.acts, data[p])), o.next,
                     Pending(marks', open', data, p))
            && (o.next == Again ==> Rank(o.p.state) < Rank(parser.state))
  {
    hide Switch, Same, Pending, OneByte, Execute, Core, ActEvents, Feed, Lead, MarksAre, Performed, TokenState, Rank, Ends, InByte, InStep;
    match Switch(parser, data[p], skip).next
    case Again =>
      AgainStep(start, skip, data, p, parser, marks, open, calls, part, marks', open', calls');
      AgainDescends(parser, data[p], skip);
    case Done =>
      DoneStep(start, skip, data, p, parser, marks, open, calls, part, marks', open', calls');
    case _ =>
      StopStep(start, skip, data, p, parser, marks, open, calls, part, marks', open', calls');
  }

  /** The mark that is open after the acts of a byte. */
  lemma Target(start: Parser, parser: Parser, data: seq<Byte>, p: nat, skip: Answer, marks: Marks, open: Option<Token>, calls: seq<Event>, part: seq<Event>)
    returns (target: Option<Token>)
    requires InByte(start, skip, data, p, parser, marks, open, calls, part) && !Bulk(parser.state)
    ensures var o := Switch(parser, data[p], skip);
            o.next != Broken && ActsTo(open, o.acts, target)
            && (!o.next.Fail? ==> target == TokenState(o.p.state)) && (o.next == Leave ==> target == None)
  {
    hide Switch, ActsTo, TokenState, Core, Fits, Same, Feed, Pending, MarksAre, OneByte, Execute;
    SwitchActs(parser, data[p], skip, open);
    SwitchOk(parser, data[p], skip);
    var o := Switch(parser, data[p], skip);
    if !o.next.Fail? {
      target := TokenState(o.p.state);
    } else if ActsTo(open, o.acts, open) {
      target := open;
    } else {
      var k :| ActsTo(open, o.acts, Some(k));
      target := Some(k);
    }
  }

  /** A token goes on from the last buffer: its mark is set to the start of this one. */
  method InitialMarks(start: Parser, ghost skip: Answer, data: seq<Byte>) returns (marks: Marks, ghost open: Option<Token>)
    requires AtRest(start) && data != []
    ensures InStep(start, skip, data, 0, start, marks, open, [])
  {
    hide Core;
    open := TokenState(start.state);
    marks := map[];
    if start.state == HeaderField {
      marks := map[Field := 0];
    }
    if start.state == HeaderValue {
      marks := map[Value := 0];
    }
    if UrlState(start.state) {
      marks := map[Url := 0];
    }
    assert data[..0] == [];
  }

  lemma NoMarkInBody(start: Parser, skip: Answer, data: seq<Byte>, p: nat, parser: Parser, marks: Marks, open: Option<Token>, calls: seq<Event>)
    returns (open': Option<Token>)
    requires InStep(start, skip, data, p, parser, marks, open, calls) && Bulk(parser.state) && p < |data|
    ensures open' == None && InStep(start, skip, data, p, parser, marks, open', calls)
  {
    open' := open;
  }

  lemma ExecutedIs(start: Parser, skip: Answer, data: seq<Byte>, p: nat, parser: Parser, marks: Marks, open: Option<Token>, calls: seq<Event>,
                   part: seq<Event>, next: Next, pending: seq<Event>)
    requires Executed(start, skip, data, p, parser, marks, open, calls, part, next, pending) && next != Again
    ensures match next
            case Done => InStep(start, skip, data, p + 1, parser, marks, open, calls) && p < |data|
            case Fail(e) => Ends(Feed(start, data, skip), parser, Some(e), p, calls, pending)
            case Leave => Ends(Feed(start, data, skip), parser, None, p + 1, calls, [])
            case _ => false
  {
    hide Ends, Feed, Same, AtRest, Fits, MarksAre;
  }

  lemma Overflow(start: Parser, skip: Answer, data: seq<Byte>, p: nat, before: Parser, parser: Parser, marks: Marks, open: Option<Token>, calls: seq<Event>)
    returns (pending: seq<Event>)
    requires p < |data| && InStep(start, skip, data, p, before, marks, open, calls)
    requires OneByte(before, data[p], skip) == Run(parser, [], Failed(HeaderOverflow), 0)
    ensures Ends(Feed(start, data, skip), parser, Some(HeaderOverflow), p, calls, pending)
  {
    hide OneByte, AtRest, Same, Feed, Lead, MarksAre, Fits;
    FeedNext(start, skip, data, p);
    FeedStopped(start, skip, data, p + 1);
    var so := Feed(start, data[..p], skip);
    assert so.events + [] == so.events;
    if p == 0 {
      pending := [];
      assert data[..0] == [];
      FeedNothing(start, skip);
      SameSelf([]);
    } else {
      pending := Pending(marks, open, data, p);
      SameTrans(calls + pending, so.events + Lead(before.state), so.events);
    }
  }

  lemma FeedNothing(start: Parser, skip: Answer)
    ensures Feed(start, [], skip) == Run(start, [], Running, 0)
  {
  }

  /** The calls for the mark left open at the end of the buffer; at most one is set. */
  method Flush(ghost start: Parser, ghost skip: Answer, data: seq<Byte>, ghost parser: Parser, marks: Marks, ghost open: Option<Token>, calls: seq<Event>)
    returns (calls': seq<Event>)
    requires data != [] && InStep(start, skip, data, |data|, parser, marks, open, calls)
    ensures Ends(Feed(start, data, skip), parser, None, |data|, calls', [])
  {
    hide AtRest, Feed, Same;
    assert |marks| <= 1;
    assert data[..|data|] == data;
    calls' := calls;
    if Field in marks {
      calls' := calls' + [Data(Field, data[marks[Field]..])];
    }
    if Value in marks {
      calls' := calls' + [Data(Value, data[marks[Value]..])];
    }
    if Url in marks {
      calls' := calls' + [Data(Url, data[marks[Url]..])];
    }
    if Body in marks {
      calls' := calls' + [Data(Body, data[marks[Body]..])];
    }
    FlushIs(start, skip, data, parser, marks, open, calls, calls');
  }

  lemma FlushIs(start: Parser, skip: Answer, data: seq<Byte>, parser: Parser, marks: Marks, open: Option<Token>, calls: seq<Event>, calls': seq<Event>)
    requires data != [] && InStep(start, skip, data, |data|, parser, marks, open, calls)
    requires calls' == calls + Pending(marks, open, data, |data|)
    ensures Ends(Feed(start, data, skip), parser, None, |data|, calls', [])
  {
    hide AtRest, Feed, Same;
    assert data[..|data|] == data;
    var so := Feed(start, data, skip);
    SameTrans(calls', so.events + Lead(parser.state), so.events);
    assert calls' + [] == calls';
  }

  lemma EndsAtRest(r: Run, parser: Parser, errno: Option<Errno>, used: nat, calls: seq<Event>, pending: seq<Event>)
    requires Ends(r, parser, errno, used, calls, pending) && (r.status == Running || r.status == Left ==> AtRest(r.p))
    ensures errno == None ==> AtRest(parser)
  {
  }
}
