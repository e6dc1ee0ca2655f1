/** What a byte string means to the parser, byte by byte and without marks: the final
    state and the callbacks, where adjacent data callbacks of one kind count as one. */
module HttpRun {
  import opened Common
  import opened HttpSwitch

  // ---------- Callbacks, up to merging ----------

  datatype Event = Data(token: Token, bytes: seq<Byte>) | Signal(note: Note)

  /** Adds a callback, merging it with an adjacent one for the same kind of data. */
  function Push(n: seq<Event>, e: Event): seq<Event> {
    if n != [] && e.Data? && n[|n| - 1].Data? && n[|n| - 1].token == e.token
    then n[..|n| - 1] + [Data(e.token, n[|n| - 1].bytes + e.bytes)]
    else n + [e]
  }

  function Merge(es: seq<Event>): seq<Event> {
    if es == [] then [] else Push(Merge(es[..|es| - 1]), es[|es| - 1])
  }

  /** The same callbacks, apart from how data was cut into pieces. */
  predicate Same(a: seq<Event>, b: seq<Event>) { Merge(a) == Merge(b) }

  lemma MergeOne(a: seq<Event>, e: Event)
    ensures Merge(a + [e]) == Push(Merge(a), e)
  {
    assert (a + [e])[..|a|] == a;
  }

  lemma {:induction false} SameThen(a: seq<Event>, b: seq<Event>, c: seq<Event>)
    requires Same(a, b)
    ensures Same(a + c, b + c)
  {
    if c == [] {
      assert a + c == a && b + c == b;
    } else {
      var front, e := c[..|c| - 1], c[|c| - 1];
      SameThen(a, b, front);
      assert a + c == (a + front) + [e] && b + c == (b + front) + [e];
      MergeOne(a + front, e);
      MergeOne(b + front, e);
    }
  }

  lemma MergeCut(a: seq<Event>, k: Token, x: seq<Byte>, y: seq<Byte>)
    ensures Same(a + [Data(k, x + y)], a + [Data(k, x)] + [Data(k, y)])
  {
    MergeOne(a, Data(k, x + y));
    MergeOne(a, Data(k, x));
    MergeOne(a + [Data(k, x)], Data(k, y));
    var n := Merge(a);
    if n != [] && n[|n| - 1].Data? && n[|n| - 1].token == k {
      assert n[|n| - 1].bytes + (x + y) == n[|n| - 1].bytes + x + y;
    }
  }

  /** Merging what follows first makes no difference. */
  lemma {:induction false} MergeRight(c: seq<Event>, a: seq<Event>)
    ensures Same(c + a, c + Merge(a))
  {
    if a == [] {
      assert c + a == c + Merge(a);
    } else {
      var front, e := a[..|a| - 1], a[|a| - 1];
      MergeRight(c, front);
      var n := Merge(front);
      assert Merge(a) == Push(n, e);
      hide Merge;
      assert c + a == (c + front) + [e];
      MergeOne(c + front, e);
      MergeOne(c + n, e);
      PushRight(c, n, e);
    }
  }

  lemma PushRight(c: seq<Event>, n: seq<Event>, e: Event)
    ensures Same(c + Push(n, e), c + n + [e])
  {
    hide Merge, Same;
    if n != [] && e.Data? && n[|n| - 1].Data? && n[|n| - 1].token == e.token {
      var last, init := n[|n| - 1], n[..|n| - 1];
      MergeCut(c + init, e.token, last.bytes, e.bytes);
      assert c + n + [e] == (c + init) + [last] + [e];
      assert c + Push(n, e) == (c + init) + [Data(e.token, last.bytes + e.bytes)];
    } else {
      assert c + Push(n, e) == c + n + [e];
      SameSelf(c + n + [e]);
    }
  }

  lemma SameSelf(a: seq<Event>)
    ensures Same(a, a)
  {
  }

  lemma {:induction false} SameAfter(c: seq<Event>, a: seq<Event>, b: seq<Event>)
    requires Same(a, b)
    ensures Same(c + a, c + b)
  {
    MergeRight(c, a);
    MergeRight(c, b);
  }

  // ---------- One byte ----------

  /** The token that the state is inside of. */
  function TokenState(s: State): Option<Token> {
    if UrlState(s) then Some(Url) else if s == HeaderField then Some(Field) else if s == HeaderValue then Some(Value) else None
  }

  /** An empty report inside a token, which merging absorbs. */
  function Lead(s: State): seq<Event> {
    match TokenState(s) case None => [] case Some(k) => [Data(k, [])]
  }

  function Trail(s: State, ch: Byte): seq<Event> {
    match TokenState(s) case None => [] case Some(k) => [Data(k, [ch])]
  }

  /** Opening a token reports it, possibly empty; a body byte is reported at once. */
  function ActEvent(act: Act, ch: Byte): seq<Event> {
    match act
    case Open(k) => [Data(k, if k == Body then [ch] else [])]
    case Notify(n) => [Signal(n)]
    case _ => []
  }

  function ActEvents(acts: seq<Act>, ch: Byte): seq<Event> {
    if acts == [] then [] else ActEvent(acts[0], ch) + ActEvents(acts[1..], ch)
  }

  datatype Status = Running | Failed(error: Errno) | Left | Crashed

  /** used: how many bytes were consumed. */
  datatype Run = Run(p: Parser, events: seq<Event>, status: Status, used: nat)

  /** A measure that every second execution of a byte lowers. */
  function Rank(s: State): nat {
    match s
    case HeaderValueLws => 3
    case HeaderFieldStart => 2
    case HeadersAlmostDone => 1
    case HeaderValue => 1
    case BodyIdentity => 1
    case StartReqOrRes => 1
    case _ => 0
  }

  /** The states that read a body. */
  predicate Bulk(s: State) { s == BodyIdentity || s == BodyIdentityEof || s == ChunkData }

  lemma AgainDescends(p: Parser, ch: Byte, skip: Answer)
    ensures Switch(p, ch, skip).next == Again ==>
              Rank(Switch(p, ch, skip).p.state) < Rank(p.state) && TokenState(Switch(p, ch, skip).p.state) == None && !Bulk(Switch(p, ch, skip).p.state)
  {
    hide StartSwitch, ResponseSwitch, RequestSwitch, UrlSwitch, HeaderSwitch, EndSwitch, ChunkSwitch, BodySwitch;
    AgainInStart(p, ch);
    AgainNever(p, ch);
    AgainInHeader(p, ch);
    AgainAtEnd(p, ch, skip);
    AgainInBody(p, ch);
    hide Rank;
  }

  lemma AgainInStart(p: Parser, ch: Byte)
    ensures GroupOf(p.state) == InStart && StartSwitch(p, ch).next == Again ==>
              Rank(StartSwitch(p, ch).p.state) < Rank(p.state) && TokenState(StartSwitch(p, ch).p.state) == None && !Bulk(StartSwitch(p, ch).p.state)
  {
    hide FirstMethod, MethodString, Lower;
  }

  lemma AgainNever(p: Parser, ch: Byte)
    ensures ResponseSwitch(p, ch).next != Again && RequestSwitch(p, ch).next != Again
    ensures UrlSwitch(p, ch).next != Again && ChunkSwitch(p, ch).next != Again
  {
    hide ParseUrlChar, Unhex;
  }

  lemma AgainInHeader(p: Parser, ch: Byte)
    ensures GroupOf(p.state) == InHeader && HeaderSwitch(p, ch).next == Again ==>
              Rank(HeaderSwitch(p, ch).p.state) < Rank(p.state) && TokenState(HeaderSwitch(p, ch).p.state) == None && !Bulk(HeaderSwitch(p, ch).p.state)
  {
    hide FieldByte, MatchByte, TokenOf, Lower;
  }

  lemma AgainAtEnd(p: Parser, ch: Byte, skip: Answer)
    ensures GroupOf(p.state) == AtEnd && EndSwitch(p, ch, skip).next == Again ==>
              Rank(EndSwitch(p, ch, skip).p.state) < Rank(p.state) && TokenState(EndSwitch(p, ch, skip).p.state) == None && !Bulk(EndSwitch(p, ch, skip).p.state)
  {
    hide ShouldKeepAlive, MessageNeedsEof;
  }

  lemma AgainInBody(p: Parser, ch: Byte)
    ensures GroupOf(p.state) == InBody && BodySwitch(p, ch).next == Again ==>
              Rank(BodySwitch(p, ch).p.state) < Rank(p.state) && TokenState(BodySwitch(p, ch).p.state) == None && !Bulk(BodySwitch(p, ch).p.state)
  {
    hide ShouldKeepAlive, MessageNeedsEof;
  }

  function Execute(p: Parser, ch: Byte, skip: Answer): Run
    decreases Rank(p.state)
  {
    AgainDescends(p, ch, skip);
    var o := Switch(p, ch, skip);
    var events := Lead(p.state) + ActEvents(o.acts, ch);
    match o.next
    case Done => Run(o.p, events + Trail(o.p.state, ch), Running, 1)
    case Again => var r := Execute(o.p, ch, skip); r.(events := events + r.events)
    case Fail(e) => Run(o.p, events, Failed(e), 0)
    case Leave => Run(o.p, events, Left, 1)
    case Broken => Run(o.p, events, Crashed, 0)
  }

  /** Counts the byte and executes it. */
  function OneByte(p: Parser, ch: Byte, skip: Answer): Run {
    var q := if ParsingHeader(p.state) then p.(nread := p.nread + 1) else p;
    if ParsingHeader(p.state) && q.nread > HTTP_MAX_HEADER_SIZE then Run(q, [], Failed(HeaderOverflow), 0)
    else Execute(q, ch, skip)
  }

  function Then(a: Run, b: Run): Run {
    Run(b.p, a.events + b.events, b.status, a.used + b.used)
  }

  /** All bytes, until one fails or leaves the protocol. */
  function Feed(p: Parser, data: seq<Byte>, skip: Answer): Run
    decreases |data|
  {
    if data == [] then Run(p, [], Running, 0)
    else
      var r := Feed(p, data[..|data| - 1], skip);
      if r.status != Running then r else Then(r, OneByte(r.p, data[|data| - 1], skip))
  }

  /** Feeding in two pieces: the same state and the same callbacks. */
  lemma {:induction false} FeedSplit(p: Parser, a: seq<Byte>, b: seq<Byte>, skip: Answer)
    ensures var r := Feed(p, a, skip);
            Feed(p, a + b, skip) == if r.status != Running then r else Then(r, Feed(r.p, b, skip))
    decreases |b|
  {
    hide OneByte;
    if b == [] {
      assert a + b == a;
    } else {
      FeedSplit(p, a, b[..|b| - 1], skip);
      assert (a + b)[..|a + b| - 1] == a + b[..|b| - 1];
    }
  }
}
