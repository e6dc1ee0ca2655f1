/** Results about whole calls and whole messages: cutting the input anywhere, bodies of a
    known length, and the chunked coding of section 3.6.1 of RFC 2616. */
module HttpMessages {
  import opened Common
  import opened HttpSwitch
  import opened HttpRun
  import opened HttpInvariant
  import opened HttpExecute

  // ---------- Cutting the input ----------

  /** Two calls and one call over the same bytes: the same state, error and consumption, and
      the same callbacks apart from how data is cut.  If the first call fails, the single
      call fails in the same way.  (After an upgrade the single call stops.) */
  lemma {:induction false} SplitInvariant(p: Parser, skip: Answer, d1: seq<Byte>, d2: seq<Byte>,
      p1: Parser, e1: Option<Errno>, u1: nat, c1: seq<Event>, x1: seq<Event>,
      p2: Parser, e2: Option<Errno>, u2: nat, c2: seq<Event>, x2: seq<Event>,
      p12: Parser, e12: Option<Errno>, u12: nat, c12: seq<Event>, x12: seq<Event>)
    requires Ends(Feed(p, d1, skip), p1, e1, u1, c1, x1)
    requires Feed(p, d1, skip).status == Running ==> Ends(Feed(p1, d2, skip), p2, e2, u2, c2, x2)
    requires Ends(Feed(p, d1 + d2, skip), p12, e12, u12, c12, x12)
    ensures Feed(p, d1, skip).status == Running ==>
              p12 == p2 && e12 == e2 && u12 == u1 + u2 && Same(c1 + (c2 + x2), c12 + x12) && (e12 == None ==> Same(c1 + c2, c12))
    ensures e1 != None ==> p12 == p1 && e12 == e1 && u12 == u1 && Same(c1 + x1, c12 + x12)
  {
    hide Feed, Same;
    FeedSplit(p, d1, d2, skip);
    var r1, r2 := Feed(p, d1, skip), Feed(p1, d2, skip);
    var r := Feed(p, d1 + d2, skip);
    if r1.status == Running {
      assert c1 + [] == c1;
      SameThen(c1, r1.events, c2 + x2);
      SameAfter(r1.events, c2 + x2, r2.events);
      SameTrans(c1 + (c2 + x2), r1.events + (c2 + x2), r.events);
      SameTrans(c1 + (c2 + x2), r.events, c12 + x12);
      if e12 == None {
        assert x2 == [] && x12 == [];
        assert c2 + x2 == c2 && c12 + x12 == c12;
      }
    } else if e1 != None {
      SameTrans(c1 + x1, r1.events, c12 + x12);
    }
  }

  function Concat(buffers: seq<seq<Byte>>): seq<Byte> {
    if buffers == [] then [] else Concat(buffers[..|buffers| - 1]) + buffers[|buffers| - 1]
  }

  /** One call a buffer, as long as none stops. */
  function FeedAll(p: Parser, buffers: seq<seq<Byte>>, skip: Answer): Run {
    if buffers == [] then Run(p, [], Running, 0)
    else
      var r := FeedAll(p, buffers[..|buffers| - 1], skip);
      if r.status != Running then r else Then(r, Feed(r.p, buffers[|buffers| - 1], skip))
  }

  /** However the input is cut into buffers, it means the same. */
  lemma {:induction false} AnyBuffers(p: Parser, buffers: seq<seq<Byte>>, skip: Answer)
    ensures FeedAll(p, buffers, skip) == Feed(p, Concat(buffers), skip)
  {
    if buffers != [] {
      AnyBuffers(p, buffers[..|buffers| - 1], skip);
      FeedSplit(p, Concat(buffers[..|buffers| - 1]), buffers[|buffers| - 1], skip);
    }
  }

  // ---------- Bodies of known length ----------

  /** Before its last byte, an identity body is passed on as it comes: what was delivered
      and what remains always add up to the declared length. */
  lemma {:induction false} BodyConserved(p: Parser, part: seq<Byte>, skip: Answer)
    requires AtRest(p) && p.state == BodyIdentity && 0 < |part| < p.contentLength
    ensures var r := Feed(p, part, skip);
            r.status == Running && r.p == p.(contentLength := p.contentLength - |part|) && Same(r.events, [Data(Body, part)])
  {
    hide Feed, Core, Same;
    RestInBody(p);
    BulkRun(p, part, skip);
    BodyMerge([], part);
    assert [] + BodyEvents(part) == BodyEvents(part) && [] + [Data(Body, part)] == [Data(Body, part)];
  }

  /** Exactly the declared number of bytes is delivered, and then the message is complete. */
  lemma {:induction false} BodyExact(p: Parser, body: seq<Byte>, skip: Answer)
    requires AtRest(p) && p.state == BodyIdentity && |body| == p.contentLength
    ensures var r := Feed(p, body, skip);
            r.status == Running && r.used == |body| && r.p == NewMessage(p.(contentLength := 0))
            && Same(r.events, [Data(Body, body), Signal(MessageComplete)])
  {
    hide AtRest, Same, NewMessage, Execute, OneByte, Reading, BodyEvents, Feed;
    RestInBody(p);
    var front, last := body[..|body| - 1], body[|body| - 1];
    BulkRun(p, front, skip);
    LastByte(p, last, skip, |body|);
    ReadAll(p);
    DoneByte(Reading(p, |body|), last, skip);
    FeedLast(p, body, skip);
    BodyAndSignal(body);
  }

  lemma ReadAll(p: Parser)
    requires p.state == BodyIdentity
    ensures var q := Reading(p, p.contentLength);
            q.state == MessageDone && NewMessage(q) == NewMessage(p.(contentLength := 0))
  {
  }

  lemma FeedLast(p: Parser, data: seq<Byte>, skip: Answer)
    requires data != []
    ensures var r := Feed(p, data[..|data| - 1], skip);
            Feed(p, data, skip) == if r.status != Running then r else Then(r, OneByte(r.p, data[|data| - 1], skip))
  {
    hide OneByte;
  }

  lemma {:induction false} BodyAndSignal(body: seq<Byte>)
    requires body != []
    ensures var front, last := body[..|body| - 1], body[|body| - 1];
            Same(BodyEvents(front) + ([Data(Body, [last])] + [Signal(MessageComplete)]), [Data(Body, body), Signal(MessageComplete)])
  {
    hide Same, BodyEvents;
    var front, last := body[..|body| - 1], body[|body| - 1];
    BodyMerge([], body);
    BodySnoc([], body);
    SameThen([] + BodyEvents(body), [] + [Data(Body, body)], [Signal(MessageComplete)]);
    assert [] + BodyEvents(body) + [Signal(MessageComplete)] ==
           BodyEvents(front) + ([Data(Body, [last])] + [Signal(MessageComplete)]);
    assert [] + [Data(Body, body)] + [Signal(MessageComplete)] == [Data(Body, body), Signal(MessageComplete)];
  }

  /** The byte counted towards the header size. */
  function Counted(p: Parser): Parser {
    if ParsingHeader(p.state) then p.(nread := p.nread + 1) else p
  }

  /** What the switch does in the states after the headers. */
  lemma SwitchLate(p: Parser, ch: Byte, skip: Answer)
    ensures GroupOf(p.state) == InChunk ==> Switch(p, ch, skip) == ChunkSwitch(p, ch)
    ensures GroupOf(p.state) == InHeader ==> Switch(p, ch, skip) == HeaderSwitch(p, ch)
    ensures GroupOf(p.state) == AtEnd ==> Switch(p, ch, skip) == EndSwitch(p, ch, skip)
    ensures GroupOf(p.state) == InBody ==> Switch(p, ch, skip) == BodySwitch(p, ch)
  {
    hide GroupOf, StartSwitch, ResponseSwitch, RequestSwitch, UrlSwitch, HeaderSwitch, EndSwitch, ChunkSwitch, BodySwitch;
  }

  lemma ExecutedAtOnce(p: Parser, ch: Byte, skip: Answer, q: Parser, acts: seq<Act>)
    requires Switch(p, ch, skip) == Out(q, acts, Done)
    ensures Execute(p, ch, skip) == Run(q, Lead(p.state) + ActEvents(acts, ch) + Trail(q.state, ch), Running, 1)
  {
    hide Switch, ActEvents, Lead, Trail;
  }

  /** A byte that the switch consumes at once. */
  lemma Consumed(p: Parser, ch: Byte, skip: Answer, q: Parser, acts: seq<Act>)
    requires ParsingHeader(p.state) ==> p.nread < HTTP_MAX_HEADER_SIZE
    requires Switch(Counted(p), ch, skip) == Out(q, acts, Done)
    ensures OneByte(p, ch, skip) == Run(q, Lead(p.state) + ActEvents(acts, ch) + Trail(q.state, ch), Running, 1)
  {
    hide Switch, ActEvents, Lead, Trail, Execute;
    ExecutedAtOnce(Counted(p), ch, skip, q, acts);
  }

  /** One without callbacks, outside of tokens. */
  lemma Quiet(p: Parser, ch: Byte, skip: Answer, q: Parser)
    requires ParsingHeader(p.state) ==> p.nread < HTTP_MAX_HEADER_SIZE
    requires Switch(Counted(p), ch, skip) == Out(q, [], Done) && TokenState(p.state) == None && TokenState(q.state) == None
    ensures OneByte(p, ch, skip) == Run(q, [], Running, 1)
  {
    hide Switch, OneByte, Counted, TokenState;
    Consumed(p, ch, skip, q, []);
  }

  lemma NotifyEvent(n: Note, ch: Byte)
    ensures ActEvents([Notify(n)], ch) == [Signal(n)]
  {
    assert [Notify(n)][1..] == [];
  }

  lemma DoneStates(q: Parser)
    ensures TokenState(MessageDone) == None && TokenState(NewMessage(q).state) == None && GroupOf(MessageDone) == InBody
  {
    hide ShouldKeepAlive;
  }

  lemma DoneByte(q: Parser, ch: Byte, skip: Answer)
    requires q.state == MessageDone
    ensures Execute(q, ch, skip) == Run(NewMessage(q), [Signal(MessageComplete)], Running, 1)
  {
    hide ShouldKeepAlive, ActEvents, Switch, Execute, NewMessage;
    SwitchLate(q, ch, skip);
    DoneStates(q);
    NotifyEvent(MessageComplete, ch);
    ExecutedAtOnce(q, ch, skip, NewMessage(q), [Notify(MessageComplete)]);
  }

  // ---------- Lengths ----------

  /** A length is appended to exactly when the result is below 2^64 - 1.  Otherwise the
      overflow test may fire, or miss. */
  lemma {:induction false} AppendExactIff(length: nat, base: nat, digit: nat)
    requires length <= ULLONG_MAX && (base == 10 || base == 16) && digit < base
    ensures AppendDigit(length, base, digit) == Some(length * base + digit) <==> length * base + digit < ULLONG_MAX
  {
    if base == 10 {
      AppendTen(length, digit);
    } else {
      AppendSixteen(length, digit);
    }
  }

  lemma AppendTen(length: nat, digit: nat)
    ensures AppendDigit(length, 10, digit) == Some(length * 10 + digit) <==> length * 10 + digit < ULLONG_MAX
  {
    Wraps(length * 10 + digit);
  }

  lemma AppendSixteen(length: nat, digit: nat)
    ensures AppendDigit(length, 16, digit) == Some(length * 16 + digit) <==> length * 16 + digit < ULLONG_MAX
  {
    Wraps(length * 16 + digit);
  }

  lemma Wraps(n: nat)
    ensures n % (ULLONG_MAX + 1) == n <==> n <= ULLONG_MAX
    ensures n % (ULLONG_MAX + 1) <= ULLONG_MAX
  {
  }

  const ZERO: Byte := 48

  function DecimalValue(digits: seq<Byte>): nat
    requires forall i :: 0 <= i < |digits| ==> IsNum(digits[i])
  {
    if digits == [] then 0
    else
      assert IsNum(digits[|digits| - 1]);
      10 * DecimalValue(digits[..|digits| - 1]) + Digit(digits[|digits| - 1])
  }

  lemma {:induction false} DecimalPrefix(digits: seq<Byte>, n: nat)
    requires n <= |digits| && forall i :: 0 <= i < |digits| ==> IsNum(digits[i])
    ensures DecimalValue(digits[..n]) <= DecimalValue(digits)
  {
    if n < |digits| {
      DecimalPrefix(digits[..|digits| - 1], n);
      assert digits[..|digits| - 1][..n] == digits[..n];
    } else {
      assert digits[..n] == digits;
    }
  }

  /** The parser at the value of a Content-Length header. */
  predicate AtLength(p: Parser) { p.state == HeaderValueStart && p.header == ContentLength }

  lemma LengthByte(p: Parser, ch: Byte, skip: Answer)
    requires IsNum(ch) && p.nread < HTTP_MAX_HEADER_SIZE
    requires AtLength(p) || (p.state == HeaderValue && p.header == ContentLength && p.contentLength * 10 + Digit(ch) < ULLONG_MAX)
    ensures var n := if AtLength(p) then Digit(ch) else p.contentLength * 10 + Digit(ch);
            var r := OneByte(p, ch, skip);
            r.status == Running && r.used == 1
            && r.p == p.(state := HeaderValue, nread := p.nread + 1, contentLength := n, index := if AtLength(p) then 0 else p.index)
  {
    hide AppendDigit, Lower, ActEvents, Lead, Trail, Execute, OneByte, ValueStart, Switch;
    SwitchLate(Counted(p), ch, skip);
    var p' := p.(nread := p.nread + 1);
    if AtLength(p) {
      FirstDigit(p', ch);
      Consumed(p, ch, skip, p'.(state := HeaderValue, index := 0, contentLength := Digit(ch)), [Open(Value)]);
    } else {
      AppendTen(p.contentLength, Digit(ch));
      Consumed(p, ch, skip, p'.(contentLength := p.contentLength * 10 + Digit(ch)), []);
    }
  }

  lemma FirstDigit(p: Parser, ch: Byte)
    requires IsNum(ch) && AtLength(p)
    ensures ValueStart(p, ch) == Out(p.(state := HeaderValue, index := 0, contentLength := Digit(ch)), [Open(Value)], Done)
  {
    hide Lower;
  }

  /** A decimal length below 2^64 - 1 is stored exactly. */
  lemma {:induction false} LengthStored(p: Parser, digits: seq<Byte>, n: nat, skip: Answer)
    requires AtLength(p) && 1 <= n <= |digits| && p.nread + |digits| <= HTTP_MAX_HEADER_SIZE
    requires (forall i :: 0 <= i < |digits| ==> IsNum(digits[i])) && DecimalValue(digits) < ULLONG_MAX
    ensures var r := Feed(p, digits[..n], skip);
            r.status == Running && r.used == n
            && r.p == p.(state := HeaderValue, nread := p.nread + n, contentLength := DecimalValue(digits[..n]), index := 0)
  {
    hide OneByte, Same, Feed;
    var front := digits[..n - 1];
    assert digits[..n][..n - 1] == front;
    DecimalPrefix(digits, n);
    if n == 1 {
      assert front == [];
      NoBytes(p, skip);
      LengthByte(p, digits[0], skip);
    } else {
      LengthStored(p, digits, n - 1, skip);
      LengthByte(Feed(p, front, skip).p, digits[n - 1], skip);
    }
    FeedLast(p, digits[..n], skip);
  }

  lemma ExecutedToFailure(p: Parser, ch: Byte, skip: Answer)
    requires Switch(p, ch, skip).next.Fail?
    ensures Execute(p, ch, skip).status != Running
  {
    hide Switch, ActEvents, Lead, Trail;
  }

  /** One more digit of a length, whatever it does. */
  lemma DigitAppended(p: Parser, ch: Byte, skip: Answer)
    requires IsNum(ch) && p.nread < HTTP_MAX_HEADER_SIZE && p.state == HeaderValue && p.header == ContentLength
    ensures var r := OneByte(p, ch, skip);
            match AppendDigit(p.contentLength, 10, Digit(ch))
            case None => r.status != Running
            case Some(n) => r.status == Running && r.p == p.(nread := p.nread + 1, contentLength := n)
  {
    hide AppendDigit, Lower, ActEvents, Lead, Trail, Execute, Switch;
    SwitchLate(Counted(p), ch, skip);
    match AppendDigit(p.contentLength, 10, Digit(ch))
    case None => ExecutedToFailure(Counted(p), ch, skip);
    case Some(n) => Consumed(p, ch, skip, p.(nread := p.nread + 1, contentLength := n), []);
  }

  /** Digits either stop the parser or leave it with a length below 2^64 - 1. */
  lemma {:induction false} DigitsRun(p: Parser, digits: seq<Byte>, n: nat, skip: Answer)
    requires AtLength(p) && 1 <= n <= |digits| && p.nread + |digits| <= HTTP_MAX_HEADER_SIZE
    requires forall i :: 0 <= i < |digits| ==> IsNum(digits[i])
    ensures var r := Feed(p, digits[..n], skip);
            r.status != Running
            || (r.p == p.(state := HeaderValue, nread := p.nread + n, contentLength := r.p.contentLength, index := 0)
                && r.p.contentLength < ULLONG_MAX)
  {
    hide OneByte, Feed;
    var front := digits[..n - 1];
    assert digits[..n][..n - 1] == front;
    if n == 1 {
      assert front == [];
      NoBytes(p, skip);
      LengthByte(p, digits[0], skip);
    } else {
      DigitsRun(p, digits, n - 1, skip);
      var q := Feed(p, front, skip).p;
      if Feed(p, front, skip).status == Running {
        DigitAppended(q, digits[n - 1], skip);
        AppendedBelow(q.contentLength, Digit(digits[n - 1]));
      }
    }
    FeedLast(p, digits[..n], skip);
  }

  lemma AppendedBelow(length: nat, digit: nat)
    ensures var a := AppendDigit(length, 10, digit); a.Some? ==> a.value < ULLONG_MAX
  {
    Wraps(length * 10 + digit);
  }

  /** Exactly then: the digits of a length are stored as their value if and only if that is
      below 2^64 - 1. */
  lemma LengthStoredIff(p: Parser, digits: seq<Byte>, skip: Answer)
    requires AtLength(p) && digits != [] && p.nread + |digits| <= HTTP_MAX_HEADER_SIZE
    requires forall i :: 0 <= i < |digits| ==> IsNum(digits[i])
    ensures var r := Feed(p, digits, skip);
            r.status == Running && r.p.contentLength == DecimalValue(digits) <==> DecimalValue(digits) < ULLONG_MAX
  {
    hide Feed, DecimalValue;
    assert digits[..|digits|] == digits;
    if DecimalValue(digits) < ULLONG_MAX {
      LengthStored(p, digits, |digits|, skip);
    } else {
      DigitsRun(p, digits, |digits|, skip);
    }
  }

  /** The digits of a number. */
  function Decimal(n: nat): (digits: seq<Byte>)
    ensures digits != [] && (forall i :: 0 <= i < |digits| ==> IsNum(digits[i])) && DecimalValue(digits) == n
  {
    if n < 10 then [48 + n] else Decimal(n / 10) + [48 + n % 10]
  }

  function Pow10(k: nat): nat { if k == 0 then 1 else 10 * Pow10(k - 1) }

  lemma {:induction false} FewDigits(n: nat, k: nat)
    requires k >= 1 && n < Pow10(k)
    ensures |Decimal(n)| <= k
  {
    if n >= 10 { FewDigits(n / 10, k - 1); }
  }

  lemma WrappedAppend()
    ensures AppendDigit(0x2000_0000_0000_0000, 10, 0) == Some(0x4000_0000_0000_0000)
  {
  }

  lemma OneMoreDigit(digits: seq<Byte>, d: Byte)
    requires (forall i :: 0 <= i < |digits| ==> IsNum(digits[i])) && IsNum(d)
    ensures var s := digits + [d]; (forall i :: 0 <= i < |s| ==> IsNum(s[i])) && DecimalValue(s) == 10 * DecimalValue(digits) + Digit(d)
  {
    assert (digits + [d])[..|digits|] == digits;
  }

  lemma FiveMore(k: nat)
    ensures Pow10(k + 5) == 100_000 * Pow10(k)
  {
    assert Pow10(k + 2) == 100 * Pow10(k) && Pow10(k + 4) == 100 * Pow10(k + 2);
  }

  lemma NineteenDigits()
    ensures |Decimal(0x2000_0000_0000_0000)| <= 19
  {
    hide Decimal;
    assert Pow10(4) == 10_000;
    FiveMore(4);
    FiveMore(9);
    FiveMore(14);
    hide Pow10;
    FewDigits(0x2000_0000_0000_0000, 19);
  }

  /** Otherwise the parser may go on with another length: the digits of 2^61 and one more
      zero, ten times 2^61 in all, are stored as 2^62. */
  lemma WrapsUnnoticed(p: Parser, skip: Answer)
    requires AtLength(p) && p.nread + 20 <= HTTP_MAX_HEADER_SIZE
    ensures var digits := Decimal(0x2000_0000_0000_0000) + [ZERO];
            var r := Feed(p, digits, skip);
            && (forall i :: 0 <= i < |digits| ==> IsNum(digits[i])) && DecimalValue(digits) == 0x1_4000_0000_0000_0000
            && r.status == Running && r.p.contentLength == 0x4000_0000_0000_0000
  {
    hide Feed, OneByte, Decimal, DecimalValue, AppendDigit;
    var front := Decimal(0x2000_0000_0000_0000);
    var digits := front + [ZERO];
    NineteenDigits();
    OneMoreDigit(front, ZERO);
    assert digits[..|digits| - 1] == front == front[..|front|];
    LengthStored(p, front, |front|, skip);
    var q := Feed(p, front, skip).p;
    WrappedAppend();
    DigitAppended(q, ZERO, skip);
    FeedLast(p, digits, skip);
  }

  // ---------- Chunks ----------

  /** A chunk as sent: its size in hexadecimal digits, an extension, and its data. */
  datatype Piece = Piece(size: seq<Byte>, ext: seq<Byte>, data: seq<Byte>)

  predicate IsHex(ch: Byte) { ch < 128 && Unhex(ch) >= 0 }

  /** The digits of a size, in either case, have their values, and below 128 nothing else
      is a digit. */
  lemma HexDigits(ch: Byte)
    ensures forall k :: 0 <= k < 16 ==> Unhex("0123456789abcdef"[k] as int) == k == Unhex("0123456789ABCDEF"[k] as int)
    ensures IsHex(ch) ==> exists k :: 0 <= k < 16 && (ch == "0123456789abcdef"[k] as int || ch == "0123456789ABCDEF"[k] as int)
  {
    if IsHex(ch) {
      var k := Unhex(ch);
      assert ch == "0123456789abcdef"[k] as int || ch == "0123456789ABCDEF"[k] as int;
    }
  }

  function HexValue(digits: seq<Byte>): nat
    requires forall i :: 0 <= i < |digits| ==> IsHex(digits[i])
  {
    if digits == [] then 0
    else
      assert IsHex(digits[|digits| - 1]);
      16 * HexValue(digits[..|digits| - 1]) + Unhex(digits[|digits| - 1])
  }

  /** The digits of a size below 2^64 - 1, few enough for the header limit. */
  predicate SizeOk(digits: seq<Byte>) {
    && 1 <= |digits| <= HTTP_MAX_HEADER_SIZE - 2
    && (forall i :: 0 <= i < |digits| ==> IsHex(digits[i]))
    && HexValue(digits) < ULLONG_MAX
  }

  /** Nothing, or a semicolon or space and whatever is on the line. */
  predicate ExtOk(ext: seq<Byte>) {
    ext != [] ==> (ext[0] == ';' as int || ext[0] == SPACE) && forall i :: 0 <= i < |ext| ==> ext[i] != CR
  }

  predicate PieceOk(c: Piece) {
    && SizeOk(c.size) && HexValue(c.size) == |c.data| > 0
    && ExtOk(c.ext) && |SizeLine(c)| <= HTTP_MAX_HEADER_SIZE - 2
  }

  function SizeLine(c: Piece): seq<Byte> { c.size + c.ext }

  const CRLF: seq<Byte> := [CR, LF]

  function EncodePiece(c: Piece): seq<Byte> { SizeLine(c) + CRLF + c.data + CRLF }

  function EncodePieces(chunks: seq<Piece>): seq<Byte> {
    if chunks == [] then [] else EncodePieces(chunks[..|chunks| - 1]) + EncodePiece(chunks[|chunks| - 1])
  }

  function PieceData(chunks: seq<Piece>): seq<Byte> {
    if chunks == [] then [] else PieceData(chunks[..|chunks| - 1]) + chunks[|chunks| - 1].data
  }

  /** The parser at the start of a chunk size. */
  predicate AtChunk(p: Parser) { p.state == ChunkSizeStart && p.flags.chunked && p.nread == 0 }

  lemma SizeByte(p: Parser, ch: Byte, skip: Answer)
    requires p.flags.chunked && p.nread < HTTP_MAX_HEADER_SIZE && IsHex(ch)
    requires AtChunk(p) || (p.state == ChunkSize && p.contentLength * 16 + Unhex(ch) < ULLONG_MAX)
    ensures var n := if AtChunk(p) then Unhex(ch) else p.contentLength * 16 + Unhex(ch);
            OneByte(p, ch, skip) == Run(p.(state := ChunkSize, nread := p.nread + 1, contentLength := n), [], Running, 1)
  {
    hide AppendDigit, Execute, OneByte, Switch;
    SwitchLate(Counted(p), ch, skip);
    if !AtChunk(p) { AppendSixteen(p.contentLength, Unhex(ch)); }
    var n := if AtChunk(p) then Unhex(ch) else p.contentLength * 16 + Unhex(ch);
    assert ch != CR;
    hide Unhex;
    Quiet(p, ch, skip, p.(state := ChunkSize, nread := p.nread + 1, contentLength := n));
  }

  lemma {:induction false} HexPrefix(digits: seq<Byte>, n: nat)
    requires n <= |digits| && forall i :: 0 <= i < |digits| ==> IsHex(digits[i])
    ensures HexValue(digits[..n]) <= HexValue(digits)
  {
    if n < |digits| {
      HexPrefix(digits[..|digits| - 1], n);
      assert digits[..|digits| - 1][..n] == digits[..n];
    } else {
      assert digits[..n] == digits;
    }
  }

  /** A hexadecimal size below 2^64 - 1 is stored exactly. */
  lemma {:induction false} SizeStored(p: Parser, digits: seq<Byte>, n: nat, skip: Answer)
    requires AtChunk(p) && SizeOk(digits) && 1 <= n <= |digits|
    ensures Feed(p, digits[..n], skip) ==
            Run(p.(state := ChunkSize, nread := n, contentLength := HexValue(digits[..n])), [], Running, n)
  {
    hide OneByte, Feed;
    var front := digits[..n - 1];
    assert digits[..n][..n - 1] == front;
    HexPrefix(digits, n);
    if n == 1 {
      assert front == [];
      NoBytes(p, skip);
      SizeByte(p, digits[0], skip);
    } else {
      SizeStored(p, digits, n - 1, skip);
      SizeByte(Feed(p, front, skip).p, digits[n - 1], skip);
    }
    FeedLast(p, digits[..n], skip);
  }

  /** One more digit of a size, whatever it does. */
  lemma SizeDigit(p: Parser, ch: Byte, skip: Answer)
    requires p.flags.chunked && p.nread < HTTP_MAX_HEADER_SIZE && IsHex(ch) && p.state == ChunkSize
    ensures match AppendDigit(p.contentLength, 16, Unhex(ch))
            case None => OneByte(p, ch, skip).status != Running
            case Some(n) => OneByte(p, ch, skip) == Run(p.(nread := p.nread + 1, contentLength := n), [], Running, 1)
  {
    hide AppendDigit, Execute, OneByte, Switch;
    SwitchLate(Counted(p), ch, skip);
    assert ch != CR;
    match AppendDigit(p.contentLength, 16, Unhex(ch))
    case None =>
      ExecutedToFailure(Counted(p), ch, skip);
      FailedByte(p, ch, skip);
    case Some(n) => Quiet(p, ch, skip, p.(nread := p.nread + 1, contentLength := n));
  }

  lemma FailedByte(p: Parser, ch: Byte, skip: Answer)
    requires Execute(Counted(p), ch, skip).status != Running
    ensures OneByte(p, ch, skip).status != Running
  {
    hide Execute;
  }

  lemma {:induction false} SizesRun(p: Parser, digits: seq<Byte>, n: nat, skip: Answer)
    requires AtChunk(p) && 1 <= n <= |digits| <= HTTP_MAX_HEADER_SIZE && forall i :: 0 <= i < |digits| ==> IsHex(digits[i])
    ensures var r := Feed(p, digits[..n], skip);
            r.status != Running
            || (r == Run(p.(state := ChunkSize, nread := n, contentLength := r.p.contentLength), [], Running, n) && r.p.contentLength < ULLONG_MAX)
  {
    hide OneByte, Feed, AppendDigit, IsHex, Unhex;
    var front := digits[..n - 1];
    assert digits[..n][..n - 1] == front;
    if n == 1 {
      assert front == [];
      NoBytes(p, skip);
      SizeByte(p, digits[0], skip);
      SmallDigit(digits[0]);
    } else {
      SizesRun(p, digits, n - 1, skip);
      var q := Feed(p, front, skip).p;
      if Feed(p, front, skip).status == Running {
        SizeDigit(q, digits[n - 1], skip);
        SmallDigit(digits[n - 1]);
        AppendedHexBelow(q.contentLength, Unhex(digits[n - 1]));
      }
    }
    FeedLast(p, digits[..n], skip);
  }

  lemma SmallDigit(ch: Byte)
    requires IsHex(ch)
    ensures 0 <= Unhex(ch) < 16
  {
  }

  lemma AppendedHexBelow(length: nat, digit: int)
    requires digit >= 0
    ensures var a := AppendDigit(length, 16, digit); a.Some? ==> a.value < ULLONG_MAX
  {
    Wraps(length * 16 + digit);
  }

  /** The digits of a chunk size are stored as their value if and only if that is below
      2^64 - 1. */
  lemma SizeStoredIff(p: Parser, digits: seq<Byte>, skip: Answer)
    requires AtChunk(p) && 1 <= |digits| <= HTTP_MAX_HEADER_SIZE - 2 && forall i :: 0 <= i < |digits| ==> IsHex(digits[i])
    ensures var r := Feed(p, digits, skip);
            r.status == Running && r.p.contentLength == HexValue(digits) <==> HexValue(digits) < ULLONG_MAX
  {
    hide Feed, HexValue, IsHex;
    assert digits[..|digits|] == digits;
    if HexValue(digits) < ULLONG_MAX {
      SizeStored(p, digits, |digits|, skip);
    } else {
      SizesRun(p, digits, |digits|, skip);
    }
  }

  lemma FeedOne(p: Parser, ch: Byte, skip: Answer)
    ensures Feed(p, [ch], skip) == OneByte(p, ch, skip)
  {
    hide OneByte;
    assert [ch][..0] == [];
    FeedLast(p, [ch], skip);
    var r := OneByte(p, ch, skip);
    assert [] + r.events == r.events;
  }

  lemma FeedTwo(p: Parser, a: Byte, b: Byte, skip: Answer)
    ensures var r := OneByte(p, a, skip);
            Feed(p, [a, b], skip) == if r.status != Running then r else Then(r, OneByte(r.p, b, skip))
  {
    hide OneByte, Feed;
    FeedOne(p, a, skip);
    assert [a, b][..1] == [a];
    FeedLast(p, [a, b], skip);
  }

  /** The states in which a size line may end. */
  predicate OnSizeLine(p: Parser) { p.state == ChunkSize || p.state == ChunkParameters }

  /** The extension of a size is skipped. */
  lemma ExtByte(p: Parser, ch: Byte, skip: Answer)
    requires OnSizeLine(p) && p.flags.chunked && p.nread < HTTP_MAX_HEADER_SIZE && ch != CR
    requires p.state == ChunkSize ==> ch == ';' as int || ch == SPACE
    ensures OneByte(p, ch, skip) == Run(p.(state := ChunkParameters, nread := p.nread + 1), [], Running, 1)
  {
    hide AppendDigit, Execute, OneByte, Switch;
    SwitchLate(Counted(p), ch, skip);
    NotHex();
    hide Unhex;
    Quiet(p, ch, skip, p.(state := ChunkParameters, nread := p.nread + 1));
  }

  lemma NotHex()
    ensures Unhex(';' as int) == -1 == Unhex(SPACE)
  {
  }

  lemma {:induction false} SizeLineRun(p: Parser, c: Piece, n: nat, skip: Answer)
    requires AtChunk(p) && PieceOk(c) && |c.size| <= n <= |SizeLine(c)|
    ensures Feed(p, SizeLine(c)[..n], skip) ==
            Run(p.(state := if n == |c.size| then ChunkSize else ChunkParameters, nread := n, contentLength := |c.data|), [], Running, n)
  {
    hide Feed, OneByte, HexValue, IsHex;
    if n == |c.size| {
      assert SizeLine(c)[..n] == c.size == c.size[..n];
      SizeStored(p, c.size, n, skip);
    } else {
      SizeLineRun(p, c, n - 1, skip);
      assert SizeLine(c)[..n][..n - 1] == SizeLine(c)[..n - 1] && SizeLine(c)[n - 1] == c.ext[n - 1 - |c.size|];
      ExtByte(Feed(p, SizeLine(c)[..n - 1], skip).p, SizeLine(c)[n - 1], skip);
      FeedLast(p, SizeLine(c)[..n], skip);
    }
  }

  lemma SizeCr(p: Parser, skip: Answer)
    requires OnSizeLine(p) && p.flags.chunked && p.nread < HTTP_MAX_HEADER_SIZE
    ensures OneByte(p, CR, skip) == Run(p.(state := ChunkSizeAlmostDone, nread := p.nread + 1), [], Running, 1)
  {
    hide AppendDigit, Unhex, Execute, OneByte, Switch;
    SwitchLate(Counted(p), CR, skip);
    Quiet(p, CR, skip, p.(state := ChunkSizeAlmostDone, nread := p.nread + 1));
  }

  lemma SizeLf(p: Parser, skip: Answer)
    requires p.state == ChunkSizeAlmostDone && p.flags.chunked && p.nread < HTTP_MAX_HEADER_SIZE
    ensures OneByte(p, LF, skip) ==
            Run(if p.contentLength == 0 then p.(state := HeaderFieldStart, nread := 0, flags := p.flags.(trailing := true))
                else p.(state := ChunkData, nread := 0), [], Running, 1)
  {
    hide AppendDigit, Unhex, Execute, OneByte, Switch;
    SwitchLate(Counted(p), LF, skip);
    Quiet(p, LF, skip, if p.contentLength == 0 then p.(state := HeaderFieldStart, nread := 0, flags := p.flags.(trailing := true))
                       else p.(state := ChunkData, nread := 0));
  }

  /** The end of a size line. */
  lemma SizeLineEnd(p: Parser, skip: Answer)
    requires OnSizeLine(p) && p.flags.chunked && p.nread <= HTTP_MAX_HEADER_SIZE - 2
    ensures Feed(p, CRLF, skip) ==
            Run(if p.contentLength == 0 then p.(state := HeaderFieldStart, nread := 0, flags := p.flags.(trailing := true))
                else p.(state := ChunkData, nread := 0), [], Running, 2)
  {
    hide Feed, OneByte;
    FeedTwo(p, CR, LF, skip);
    SizeCr(p, skip);
    SizeLf(p.(state := ChunkSizeAlmostDone, nread := p.nread + 1), skip);
  }

  lemma DataCr(p: Parser, skip: Answer)
    requires p.state == ChunkDataAlmostDone && p.flags.chunked && p.contentLength == 0
    ensures OneByte(p, CR, skip) == Run(p.(state := ChunkDataDone), [], Running, 1)
  {
    hide AppendDigit, Unhex, Execute, OneByte, ActEvents, Switch;
    SwitchLate(Counted(p), CR, skip);
    NoEvents(CloseMark(Body), CR);
    Consumed(p, CR, skip, p.(state := ChunkDataDone), [CloseMark(Body)]);
  }

  lemma NoEvents(act: Act, ch: Byte)
    requires act.CloseMark?
    ensures ActEvents([act], ch) == []
  {
    assert [act][1..] == [];
  }

  lemma DataEnd(p: Parser, skip: Answer)
    requires p.state == ChunkDataAlmostDone && p.flags.chunked && p.contentLength == 0
    ensures Feed(p, CRLF, skip) == Run(p.(state := ChunkSizeStart, nread := 0), [], Running, 2)
  {
    hide Feed, OneByte;
    FeedTwo(p, CR, LF, skip);
    Zero([]);
    DataCr(p, skip);
    DataLf(p.(state := ChunkDataDone), skip);
  }

  lemma DataLf(p: Parser, skip: Answer)
    requires p.state == ChunkDataDone && p.flags.chunked
    ensures OneByte(p, LF, skip) == Run(p.(state := ChunkSizeStart, nread := 0), [], Running, 1)
  {
    hide AppendDigit, Unhex, Execute, OneByte, Switch;
    SwitchLate(Counted(p), LF, skip);
    Quiet(p, LF, skip, p.(state := ChunkSizeStart, nread := 0));
  }

  /** The parser behind the size line of a chunk. */
  function InData(p: Parser, c: Piece): Parser {
    p.(state := ChunkData, nread := 0, contentLength := |c.data|)
  }

  lemma InDataOk(p: Parser, c: Piece)
    requires AtChunk(p) && PieceOk(c)
    ensures BulkOk(InData(p, c))
  {
    hide HexValue, IsHex;
  }

  lemma {:induction false} PieceStart(p: Parser, c: Piece, skip: Answer)
    requires AtChunk(p) && PieceOk(c)
    ensures Feed(p, SizeLine(c) + CRLF, skip) == Run(InData(p, c), [], Running, |SizeLine(c)| + 2)
  {
    hide Feed, OneByte, SizeOk, ExtOk;
    assert SizeLine(c)[..|SizeLine(c)|] == SizeLine(c);
    SizeLineRun(p, c, |SizeLine(c)|, skip);
    SizeLineEnd(Feed(p, SizeLine(c), skip).p, skip);
    FeedSplit(p, SizeLine(c), CRLF, skip);
  }

  /** Within the data of a chunk: what was delivered and what remains add up to its size. */
  lemma {:induction false} PieceBody(p: Parser, c: Piece, j: nat, skip: Answer)
    requires AtChunk(p) && PieceOk(c) && j <= |c.data|
    ensures Feed(p, SizeLine(c) + CRLF + c.data[..j], skip) ==
            Run(Reading(InData(p, c), j), BodyEvents(c.data[..j]), Running, |SizeLine(c)| + 2 + j)
  {
    hide Feed, OneByte, BodyEvents, SizeOk, BulkOk, HexValue, IsHex;
    InDataOk(p, c);
    PieceStart(p, c, skip);
    BulkRun(InData(p, c), c.data[..j], skip);
    FeedSplit(p, SizeLine(c) + CRLF, c.data[..j], skip);
  }

  /** One chunk: its data is delivered, and the next size is expected. */
  lemma {:induction false} OnePiece(p: Parser, c: Piece, skip: Answer)
    requires AtChunk(p) && PieceOk(c)
    ensures Feed(p, EncodePiece(c), skip) ==
            Run(p.(contentLength := 0), BodyEvents(c.data), Running, |EncodePiece(c)|)
  {
    hide Feed, OneByte, BodyEvents, SizeOk;
    assert c.data[..|c.data|] == c.data;
    PieceBody(p, c, |c.data|, skip);
    DataEnd(p.(state := ChunkDataAlmostDone, contentLength := 0), skip);
    FeedSplit(p, SizeLine(c) + CRLF + c.data, CRLF, skip);
  }

  /** The data among the first i bytes of a chunk as sent. */
  function DataIn(c: Piece, i: nat): seq<Byte> {
    var head := |SizeLine(c)| + 2;
    if i <= head then [] else if i <= head + |c.data| then c.data[..i - head] else c.data
  }

  /** The data among the first n bytes of all chunks as sent. */
  function Delivered(chunks: seq<Piece>, n: nat): seq<Byte> {
    if chunks == [] then []
    else
      var front := chunks[..|chunks| - 1];
      if n <= |EncodePieces(front)| then Delivered(front, n)
      else PieceData(front) + DataIn(chunks[|chunks| - 1], n - |EncodePieces(front)|)
  }

  lemma {:induction false} PartOfSize(p: Parser, c: Piece, i: nat, skip: Answer)
    requires AtChunk(p) && PieceOk(c) && i < |SizeLine(c)| + 2
    ensures var r := Feed(p, EncodePiece(c)[..i], skip); r == Run(r.p, [], Running, i)
  {
    hide Feed, OneByte, HexValue, IsHex;
    if i == 0 {
      NoBytes(p, skip);
    } else if i < |c.size| {
      assert EncodePiece(c)[..i] == c.size[..i];
      SizeStored(p, c.size, i, skip);
    } else if i <= |SizeLine(c)| {
      assert EncodePiece(c)[..i] == SizeLine(c)[..i];
      SizeLineRun(p, c, i, skip);
    } else {
      var line := SizeLine(c);
      assert EncodePiece(c)[..i] == line + [CR] && (line + [CR])[..|line|] == line == line[..|line|];
      SizeLineRun(p, c, |line|, skip);
      SizeCr(Feed(p, line, skip).p, skip);
      FeedLast(p, line + [CR], skip);
    }
  }

  lemma {:induction false} BehindData(p: Parser, c: Piece, skip: Answer)
    requires AtChunk(p) && PieceOk(c)
    ensures var r := Feed(p, SizeLine(c) + CRLF + c.data + [CR], skip); r == Run(r.p, BodyEvents(c.data), Running, |EncodePiece(c)| - 1)
  {
    hide Feed, OneByte, BodyEvents, SizeOk;
    var front := SizeLine(c) + CRLF + c.data;
    assert c.data[..|c.data|] == c.data && (front + [CR])[..|front|] == front;
    PieceBody(p, c, |c.data|, skip);
    DataCr(p.(state := ChunkDataAlmostDone, nread := 0, contentLength := 0), skip);
    FeedLast(p, front + [CR], skip);
  }

  lemma {:induction false} PartOfPiece(p: Parser, c: Piece, i: nat, skip: Answer)
    requires AtChunk(p) && PieceOk(c) && i <= |EncodePiece(c)|
    ensures var r := Feed(p, EncodePiece(c)[..i], skip); r == Run(r.p, BodyEvents(DataIn(c, i)), Running, i)
    ensures var r, head := Feed(p, EncodePiece(c)[..i], skip), |SizeLine(c)| + 2;
            head <= i < head + |c.data| ==> r.p == InData(p, c).(contentLength := head + |c.data| - i)
  {
    hide Feed, OneByte, BodyEvents, SizeOk;
    var head := |SizeLine(c)| + 2;
    var bytes := EncodePiece(c);
    NoBytes(p, skip);
    if i < head {
      PartOfSize(p, c, i, skip);
    } else if i <= head + |c.data| {
      assert bytes[..i] == SizeLine(c) + CRLF + c.data[..i - head];
      PieceBody(p, c, i - head, skip);
    } else if i < |bytes| {
      assert bytes[..i] == SizeLine(c) + CRLF + c.data + [CR];
      BehindData(p, c, skip);
    } else {
      assert bytes[..i] == bytes;
      OnePiece(p, c, skip);
    }
  }

  lemma {:induction false} BodyEventsConcat(a: seq<Byte>, b: seq<Byte>)
    ensures BodyEvents(a + b) == BodyEvents(a) + BodyEvents(b)
  {
    if b == [] {
      assert a + b == a;
    } else {
      BodyEventsConcat(a, b[..|b| - 1]);
      assert (a + b)[..|a + b| - 1] == a + b[..|b| - 1];
    }
  }

  lemma {:induction false} AllPieces(p: Parser, chunks: seq<Piece>, skip: Answer)
    requires AtChunk(p) && forall c :: c in chunks ==> PieceOk(c)
    ensures var r := Feed(p, EncodePieces(chunks), skip);
            r == Run(r.p, BodyEvents(PieceData(chunks)), Running, |EncodePieces(chunks)|)
            && AtChunk(r.p) && r.p == p.(contentLength := r.p.contentLength)
  {
    hide Feed, BodyEvents, PieceOk, EncodePiece;
    if chunks == [] {
      NoBytes(p, skip);
    } else {
      var front, c := chunks[..|chunks| - 1], chunks[|chunks| - 1];
      AllPieces(p, front, skip);
      var r := Feed(p, EncodePieces(front), skip);
      OnePiece(r.p, c, skip);
      FeedSplit(p, EncodePieces(front), EncodePiece(c), skip);
      BodyEventsConcat(PieceData(front), c.data);
    }
  }

  /** At any point of a chunked body, wherever the chunks begin and end, exactly the data
      bytes seen so far have been delivered, in order, and nothing else. */
  lemma {:induction false} ChunksConserved(p: Parser, chunks: seq<Piece>, n: nat, skip: Answer)
    requires AtChunk(p) && (forall c :: c in chunks ==> PieceOk(c)) && n <= |EncodePieces(chunks)|
    ensures var r, body := Feed(p, EncodePieces(chunks)[..n], skip), Delivered(chunks, n);
            && r == Run(r.p, BodyEvents(body), Running, n) && body <= PieceData(chunks)
            && Same(r.events, if body == [] then [] else [Data(Body, body)])
  {
    hide Feed, BodyEvents, PieceOk, EncodePiece, Same;
    var body := Delivered(chunks, n);
    NoBytes(p, skip);
    if chunks != [] {
      var front, c := chunks[..|chunks| - 1], chunks[|chunks| - 1];
      var bytes, sent := EncodePieces(chunks), EncodePieces(front);
      if n <= |sent| {
        assert bytes[..n] == sent[..n];
        ChunksConserved(p, front, n, skip);
      } else {
        var i := n - |sent|;
        assert bytes[..n] == sent + EncodePiece(c)[..i];
        AllPieces(p, front, skip);
        PartOfPiece(Feed(p, sent, skip).p, c, i, skip);
        FeedSplit(p, sent, EncodePiece(c)[..i], skip);
        BodyEventsConcat(PieceData(front), DataIn(c, i));
      }
    }
    if body == [] {
      SameSelf([]);
    } else {
      BodyMerge([], body);
      assert [] + BodyEvents(body) == BodyEvents(body) && [] + [Data(Body, body)] == [Data(Body, body)];
    }
  }

  lemma NoBytes(p: Parser, skip: Answer)
    ensures Feed(p, [], skip) == Run(p, [], Running, 0) && BodyEvents([]) == []
  {
  }

  const LAST_CHUNK: seq<Byte> := [ZERO, CR, LF, CR, LF]

  lemma ZeroIsHex()
    ensures IsHex(ZERO) && Unhex(ZERO) == 0
  {
  }

  /** The size line of the last chunk. */
  lemma LastSize(p: Parser, skip: Answer)
    requires AtChunk(p)
    ensures Feed(p, [ZERO] + CRLF, skip) ==
            Run(p.(state := HeaderFieldStart, nread := 0, contentLength := 0, flags := p.flags.(trailing := true)), [], Running, 3)
  {
    hide Feed, OneByte;
    FeedOne(p, ZERO, skip);
    ZeroIsHex();
    hide IsHex, Unhex;
    SizeByte(p, ZERO, skip);
    SizeLineEnd(p.(state := ChunkSize, nread := 1, contentLength := 0), skip);
    FeedSplit(p, [ZERO], CRLF, skip);
  }

  /** The last chunk and an empty trailer complete the message. */
  lemma LastPiece(p: Parser, skip: Answer)
    requires AtChunk(p)
    ensures var r := Feed(p, LAST_CHUNK, skip);
            r.status == Running && r.used == 5 && r.events == [Signal(MessageComplete)]
            && r.p == NewMessage(p.(contentLength := 0, nread := 2, flags := p.flags.(trailing := true)))
  {
    hide Feed, NewMessage, AtChunk;
    LastSize(p, skip);
    var q := p.(state := HeaderFieldStart, nread := 0, contentLength := 0, flags := p.flags.(trailing := true));
    TrailerEnd(q, skip);
    FeedSplit(p, [ZERO] + CRLF, CRLF, skip);
    assert ([ZERO] + CRLF) + CRLF == LAST_CHUNK;
    SameNext(q.(state := HeadersAlmostDone, nread := 2), p.(contentLength := 0, nread := 2, flags := p.flags.(trailing := true)));
  }

  lemma SameNext(a: Parser, b: Parser)
    requires a == b.(state := a.state)
    ensures NewMessage(a) == NewMessage(b)
  {
  }

  lemma TrailerCr(p: Parser, skip: Answer)
    requires p.state == HeaderFieldStart && p.nread == 0
    ensures OneByte(p, CR, skip) == Run(p.(state := HeadersAlmostDone, nread := 1), [], Running, 1)
  {
    hide TokenOf, FieldByte, Execute, OneByte, Switch;
    SwitchLate(Counted(p), CR, skip);
    Quiet(p, CR, skip, p.(state := HeadersAlmostDone, nread := 1));
  }

  lemma TrailerLf(p: Parser, skip: Answer)
    requires p.state == HeadersAlmostDone && p.flags.trailing && p.nread == 1
    ensures OneByte(p, LF, skip) == Run(NewMessage(p.(nread := 2)), [Signal(MessageComplete)], Running, 1)
  {
    hide ShouldKeepAlive, Execute, OneByte, ActEvents, Switch;
    SwitchLate(Counted(p), LF, skip);
    NotifyEvent(MessageComplete, LF);
    Consumed(p, LF, skip, NewMessage(p.(nread := 2)), [Notify(MessageComplete)]);
  }

  lemma TrailerEnd(p: Parser, skip: Answer)
    requires p.state == HeaderFieldStart && p.flags.trailing && p.nread == 0
    ensures Feed(p, CRLF, skip) == Run(NewMessage(p.(state := HeadersAlmostDone, nread := 2)), [Signal(MessageComplete)], Running, 2)
  {
    hide Feed, OneByte, NewMessage;
    FeedTwo(p, CR, LF, skip);
    TrailerCr(p, skip);
    TrailerLf(p.(state := HeadersAlmostDone, nread := 1), skip);
  }

  /** The chunked coding, read back: the body is delivered exactly, and then the message is
      complete. */
  lemma {:induction false} ChunksRoundTrip(p: Parser, chunks: seq<Piece>, skip: Answer)
    requires AtChunk(p) && forall c :: c in chunks ==> PieceOk(c)
    ensures var r, body := Feed(p, EncodePieces(chunks) + LAST_CHUNK, skip), PieceData(chunks);
            r.status == Running && r.used == |EncodePieces(chunks)| + 5
            && Same(r.events, (if body == [] then [] else [Data(Body, body)]) + [Signal(MessageComplete)])
            && r.p == NewMessage(p.(contentLength := 0, nread := 2, flags := p.flags.(trailing := true)))
  {
    hide Feed, BodyEvents, PieceOk, NewMessage, Same;
    AllPieces(p, chunks, skip);
    var q := Feed(p, EncodePieces(chunks), skip).p;
    LastPiece(q, skip);
    FeedSplit(p, EncodePieces(chunks), LAST_CHUNK, skip);
    var body := PieceData(chunks);
    if body == [] {
      NoBytes(p, skip);
      SameSelf([] + [Signal(MessageComplete)]);
    } else {
      BodyMerge([], body);
      SameThen([] + BodyEvents(body), [] + [Data(Body, body)], [Signal(MessageComplete)]);
      assert [] + BodyEvents(body) == BodyEvents(body) && [] + [Data(Body, body)] == [Data(Body, body)];
    }
  }
}
