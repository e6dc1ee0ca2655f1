/** What the parser makes of header lines: the names and values that it recognises, whatever
    their case, and the callbacks that report them. */
module HttpHeaders {
  import opened Common
  import opened HttpSwitch
  import opened HttpRun
  import opened HttpInvariant
  import opened HttpExecute
  import opened HttpMessages

  // ---------- Text ----------

  function LowerCase(b: Byte): Byte {
    if 'A' as int <= b <= 'Z' as int then b + 32 else b
  }

  /** The bytes spell the text, in whatever case. */
  predicate Reads(bytes: seq<Byte>, text: string) {
    |bytes| == |text| && forall i :: 0 <= i < |bytes| ==> LowerCase(bytes[i]) == text[i] as int
  }

  /** Section 2.2 of RFC 2616: a character of a token is no control character, blank or
      separator. */
  predicate TokenByte(b: Byte) {
    33 <= b <= 126 && b as char !in {'(', ')', '<', '>', '@', ',', ';', ':', '\\', '"', '/', '[', ']', '?', '=', '{', '}'}
  }

  predicate IsToken(name: seq<Byte>) {
    name != [] && forall i :: 0 <= i < |name| ==> TokenByte(name[i])
  }

  /** Neither end of line. */
  predicate LineByte(b: Byte) { b != CR && b != LF }

  predicate Blank(b: Byte) { b == SPACE || b == TAB }

  /** The text without the spaces at its end. */
  function Trimmed(value: seq<Byte>): seq<Byte> {
    if value != [] && value[|value| - 1] == SPACE then Trimmed(value[..|value| - 1]) else value
  }

  /** The table of tokens is that of the RFC, and lowers letters. */
  lemma TokensAreTokens(b: Byte)
    ensures TokenOf(b) != 0 <==> TokenByte(b)
    ensures TokenByte(b) ==> TokenOf(b) == LowerCase(b)
  {
  }

  /** b | 0x20 is as good as lower case where a letter or a hyphen is looked for. */
  lemma LowerIs(b: Byte, c: char)
    requires LineByte(b) && ('a' <= c <= 'z' || c == '-')
    ensures Lower(b) == c as int <==> LowerCase(b) == c as int
  {
  }

  // ---------- Words being matched ----------

  /** The text so far, in lower case, begins the word that h is about. */
  predicate Begins(text: seq<Byte>, h: HeaderState) {
    |text| <= |MatchedName(h)| && forall k :: 0 <= k < |text| ==> LowerCase(text[k]) == MatchedName(h)[k] as int
  }

  predicate Spells(text: seq<Byte>, h: HeaderState) {
    Begins(text, h) && |text| == |MatchedName(h)|
  }

  lemma BeginsMore(text: seq<Byte>, b: Byte, h: HeaderState)
    ensures Begins(text + [b], h) <==>
              Begins(text, h) && |text| < |MatchedName(h)| && LowerCase(b) == MatchedName(h)[|text|] as int
  {
    hide MatchedName, LowerCase;
    var more := text + [b];
    assert forall k :: 0 <= k < |text| ==> more[k] == text[k];
    assert more[|text|] == b;
  }

  predicate NameWord(h: HeaderState) {
    h.MatchingConnection? || h.MatchingProxyConnection? || h.MatchingContentLength? || h.MatchingTransferEncoding? || h.MatchingUpgrade?
  }

  /** The first letters tell the names apart, except for two that share three. */
  lemma FirstLetters()
    ensures forall h: HeaderState :: NameWord(h) ==> |MatchedName(h)| >= 7
    ensures MatchedName(MatchingConnection)[..4] == "conn" && MatchedName(MatchingContentLength)[..4] == "cont"
    ensures MatchedName(MatchingProxyConnection)[0] == 'p' && MatchedName(MatchingTransferEncoding)[0] == 't'
    ensures MatchedName(MatchingUpgrade)[0] == 'u'
  {
  }

  /** No text begins two names, unless it is that start. */
  lemma OnlyOne(text: seq<Byte>, a: HeaderState, b: HeaderState)
    requires NameWord(a) && NameWord(b) && a != b && Begins(text, a) && Begins(text, b)
    ensures |text| <= 3 && (text != [] ==> a.MatchingConnection? || a.MatchingContentLength?)
  {
    FirstLetters();
    assert MatchedName(MatchingConnection)[3] == "conn"[3] && MatchedName(MatchingContentLength)[3] == "cont"[3];
    assert MatchedName(MatchingConnection)[0] == "conn"[0] && MatchedName(MatchingContentLength)[0] == "cont"[0];
    hide MatchedName;
  }

  predicate BeginsAny(text: seq<Byte>) {
    Begins(text, MatchingConnection) || Begins(text, MatchingProxyConnection) || Begins(text, MatchingContentLength)
    || Begins(text, MatchingTransferEncoding) || Begins(text, MatchingUpgrade)
  }

  /** What the header state says about the name read so far. */
  predicate NameIs(text: seq<Byte>, h: HeaderState, i: nat) {
    match h
    case General => !BeginsAny(text)
    case C => Reads(text, "c") && i == 0
    case CO => Reads(text, "co") && i == 1
    case CON => Reads(text, "con") && i == 2
    case Connection => Spells(text, MatchingConnection) || Spells(text, MatchingProxyConnection)
    case ContentLength => Spells(text, MatchingContentLength)
    case TransferEncoding => Spells(text, MatchingTransferEncoding)
    case Upgrade => Spells(text, MatchingUpgrade)
    case _ => NameWord(h) && Begins(text, h) && i + 1 == |text| < |MatchedName(h)|
              && (h.MatchingConnection? || h.MatchingContentLength? ==> |text| >= 4)
  }

  /** The first byte of a name. */
  function FirstHeader(c: Byte): HeaderState {
    if c == 'c' as int then C
    else if c == 'p' as int then MatchingProxyConnection
    else if c == 't' as int then MatchingTransferEncoding
    else if c == 'u' as int then MatchingUpgrade else General
  }

  lemma FirstIs(b: Byte)
    requires TokenByte(b)
    ensures NameIs([b], FirstHeader(TokenOf(b)), 0)
  {
    TokensAreTokens(b);
    FirstLetters();
    assert MatchedName(MatchingConnection)[0] == "conn"[0] && MatchedName(MatchingContentLength)[0] == "cont"[0];
    hide MatchedName, TokenByte, TokenOf;
  }

  lemma Short(text: seq<Byte>, b: Byte, h: HeaderState)
    requires Begins(text + [b], h)
    ensures Begins(text, h)
  {
    hide Begins, MatchedName, LowerCase;
    BeginsMore(text, b, h);
  }

  /** A text that begins no name never will. */
  lemma NoneAnyMore(text: seq<Byte>, b: Byte)
    requires !BeginsAny(text)
    ensures !BeginsAny(text + [b])
  {
    hide Begins;
    forall h: HeaderState | Begins(text + [b], h) ensures Begins(text, h) { Short(text, b, h); }
  }

  /** Where a name breaks off, the text begins no name. */
  lemma BreaksOff(text: seq<Byte>, b: Byte, h: HeaderState)
    requires NameWord(h) && Begins(text, h) && !Begins(text + [b], h) && text != []
    requires h.MatchingConnection? || h.MatchingContentLength? ==> |text| >= 4
    ensures !BeginsAny(text + [b])
  {
    hide Begins, MatchedName;
    forall g: HeaderState | NameWord(g) && Begins(text + [b], g)
      ensures false
    {
      Short(text, b, g);
      OnlyOne(text, h, g);
    }
  }

  lemma MatchStep(text: seq<Byte>, p: Parser, b: Byte)
    requires NameWord(p.header) && NameIs(text, p.header, p.index) && text != [] && TokenByte(b)
    ensures var q := MatchByte(p, TokenOf(b));
            q == p.(index := q.index, header := q.header) && NameIs(text + [b], q.header, q.index)
  {
    TokensAreTokens(b);
    BeginsMore(text, b, p.header);
    hide Begins, MatchedName, TokenOf, TokenByte, LowerCase;
    if !Begins(text + [b], p.header) { BreaksOff(text, b, p.header); }
  }

  lemma FullStep(text: seq<Byte>, h: HeaderState, b: Byte)
    requires h == Connection || h == ContentLength || h == TransferEncoding || h == Upgrade
    requires NameIs(text, h, 0)
    ensures !BeginsAny(text + [b])
  {
    var g := if h == Connection then (if Spells(text, MatchingConnection) then MatchingConnection else MatchingProxyConnection)
             else if h == ContentLength then MatchingContentLength
             else if h == TransferEncoding then MatchingTransferEncoding else MatchingUpgrade;
    FirstLetters();
    BeginsMore(text, b, g);
    hide Begins, MatchedName;
    BreaksOff(text, b, g);
  }

  lemma ReadsMore(text: seq<Byte>, b: Byte, short: string, c: char)
    requires Reads(text, short)
    ensures Reads(text + [b], short + [c]) <==> LowerCase(b) == c as int
  {
    assert (text + [b])[|text|] == b && (short + [c])[|text|] == c;
  }

  /** The letters that two names share. */
  lemma ConStep(text: seq<Byte>, p: Parser, b: Byte)
    requires (p.header == C || p.header == CO || p.header == CON) && NameIs(text, p.header, p.index) && TokenByte(b)
    ensures var q := FieldByte(p, b, TokenOf(b));
            q.Some? && q.value == p.(index := q.value.index, header := q.value.header) && NameIs(text + [b], q.value.header, q.value.index)
  {
    hide TokenByte, LowerCase, TokenOf, MatchByte, MatchedName, Begins, Reads;
    TokensAreTokens(b);
    ConText(text, b);
    ConLength(text);
    ConLength(text + [b]);
    if p.header == C {
      ReadsMore(text, b, "c", 'o');
      assert "c" + ['o'] == "co";
    } else if p.header == CO {
      ReadsMore(text, b, "co", 'n');
      assert "co" + ['n'] == "con";
    }
  }

  lemma ConLength(text: seq<Byte>)
    ensures (Reads(text, "c") ==> |text| == 1) && (Reads(text, "co") ==> |text| == 2) && (Reads(text, "con") ==> |text| == 3)
    ensures |text| == 4 ==> (forall h: HeaderState :: NameWord(h) ==> |text| < |MatchedName(h)|)
  {
    FirstLetters();
    hide MatchedName;
  }

  /** Behind the shared letters, the next one decides. */
  lemma ConText(text: seq<Byte>, b: Byte)
    requires Reads(text, "c") || Reads(text, "co") || Reads(text, "con")
    ensures BeginsAny(text + [b]) <==> Begins(text + [b], MatchingConnection) || Begins(text + [b], MatchingContentLength)
    ensures Begins(text + [b], MatchingConnection) <==> LowerCase(b) == "conn"[|text|] as int
    ensures Begins(text + [b], MatchingContentLength) <==> LowerCase(b) == "cont"[|text|] as int
  {
    FirstLetters();
    var conn, cont := MatchedName(MatchingConnection), MatchedName(MatchingContentLength);
    assert forall k :: 0 <= k < 4 ==> conn[k] == "conn"[k] && cont[k] == "cont"[k];
    BeginsMore(text, b, MatchingConnection);
    BeginsMore(text, b, MatchingContentLength);
    hide MatchedName, LowerCase;
    assert LowerCase((text + [b])[0]) == 'c' as int;
  }

  lemma NameStep(text: seq<Byte>, p: Parser, b: Byte)
    requires NameIs(text, p.header, p.index) && text != [] && TokenByte(b)
    ensures var q := FieldByte(p, b, TokenOf(b));
            q.Some? && q.value == p.(index := q.value.index, header := q.value.header) && NameIs(text + [b], q.value.header, q.value.index)
  {
    hide BeginsAny, Begins, MatchedName, TokenOf, MatchByte, Reads;
    if p.header == General {
      NoneAnyMore(text, b);
    } else if p.header == C || p.header == CO || p.header == CON {
      ConStep(text, p, b);
    } else if NameWord(p.header) {
      MatchStep(text, p, b);
    } else {
      FullStep(text, p.header, b);
      assert TokenByte(b) ==> b != SPACE;
    }
  }

  // ---------- Tokens as they are reported ----------

  lemma TokenMore(e: seq<Event>, k: Token, text: seq<Byte>, b: Byte)
    requires Same(e, [Data(k, text)])
    ensures Same(e + [Data(k, []), Data(k, [b])], [Data(k, text + [b])])
  {
    hide Same, Merge;
    TokenAgain(e, k, text);
    SameThen(e + [Data(k, [])], [Data(k, text)], [Data(k, [b])]);
    MergeCut([], k, text, [b]);
    assert [] + [Data(k, text + [b])] == [Data(k, text + [b])] && [] + [Data(k, text)] + [Data(k, [b])] == [Data(k, text)] + [Data(k, [b])];
    assert e + [Data(k, []), Data(k, [b])] == e + [Data(k, [])] + [Data(k, [b])];
    SameTrans(e + [Data(k, [])] + [Data(k, [b])], [Data(k, text)] + [Data(k, [b])], [Data(k, text + [b])]);
  }

  /** An empty report is absorbed. */
  lemma TokenAgain(e: seq<Event>, k: Token, text: seq<Byte>)
    requires Same(e, [Data(k, text)])
    ensures Same(e + [Data(k, [])], [Data(k, text)])
  {
    hide Same, Merge;
    SameThen(e, [Data(k, text)], [Data(k, [])]);
    MergeCut([], k, text, []);
    assert [] + [Data(k, text + [])] == [Data(k, text)] && [] + [Data(k, text)] + [Data(k, [])] == [Data(k, text)] + [Data(k, [])];
    assert text + [] == text;
    SameTrans(e + [Data(k, [])], [Data(k, text)] + [Data(k, [])], [Data(k, text)]);
  }

  lemma OpenEvent(k: Token, b: Byte)
    requires k != Body
    ensures ActEvents([Open(k)], b) == [Data(k, [])]
    ensures Same([Data(k, []), Data(k, [b])], [Data(k, [b])])
  {
    assert [Open(k)][1..] == [];
    MergeCut([], k, [], [b]);
    assert [] + [b] == [b];
    assert [] + [Data(k, [b])] == [Data(k, [b])] && [] + [Data(k, [])] + [Data(k, [b])] == [Data(k, []), Data(k, [b])];
  }

  /** A byte inside a token. */
  lemma InToken(p: Parser, b: Byte, skip: Answer, q: Parser, k: Token)
    requires ParsingHeader(p.state) ==> p.nread < HTTP_MAX_HEADER_SIZE
    requires Switch(Counted(p), b, skip) == Out(q, [], Done) && TokenState(p.state) == TokenState(q.state) == Some(k)
    ensures OneByte(p, b, skip) == Run(q, [Data(k, []), Data(k, [b])], Running, 1)
  {
    hide Switch, OneByte, Counted, TokenState;
    Consumed(p, b, skip, q, []);
    assert Lead(p.state) + ActEvents([], b) + Trail(q.state, b) == [Data(k, []), Data(k, [b])];
  }

  /** The first byte of a token. */
  lemma IntoToken(p: Parser, b: Byte, skip: Answer, q: Parser, k: Token)
    requires ParsingHeader(p.state) ==> p.nread < HTTP_MAX_HEADER_SIZE
    requires Switch(Counted(p), b, skip) == Out(q, [Open(k)], Done) && TokenState(p.state) == None && TokenState(q.state) == Some(k) && k != Body
    ensures OneByte(p, b, skip) == Run(q, [Data(k, []), Data(k, [b])], Running, 1)
  {
    hide Switch, OneByte, Counted, TokenState, ActEvents, Same;
    Consumed(p, b, skip, q, [Open(k)]);
    OpenEvent(k, b);
    assert Lead(p.state) + [Data(k, [])] + Trail(q.state, b) == [Data(k, []), Data(k, [b])];
  }

  /** The byte behind a token. */
  lemma OutOfToken(p: Parser, b: Byte, skip: Answer, q: Parser, k: Token)
    requires ParsingHeader(p.state) ==> p.nread < HTTP_MAX_HEADER_SIZE
    requires Switch(Counted(p), b, skip) == Out(q, [CloseMark(k)], Done) && TokenState(p.state) == Some(k) && TokenState(q.state) == None
    ensures OneByte(p, b, skip) == Run(q, [Data(k, [])], Running, 1)
  {
    hide Switch, OneByte, Counted, TokenState, ActEvents;
    Consumed(p, b, skip, q, [CloseMark(k)]);
    NoEvents(CloseMark(k), b);
    assert Lead(p.state) + [] + Trail(q.state, b) == [Data(k, [])];
  }

  // ---------- Names ----------

  lemma NameFirst(p: Parser, b: Byte, skip: Answer)
    requires p.state == HeaderFieldStart && TokenByte(b) && p.nread < HTTP_MAX_HEADER_SIZE
    ensures OneByte(p, b, skip) ==
            Run(p.(state := HeaderField, nread := p.nread + 1, index := 0, header := FirstHeader(TokenOf(b))),
                [Data(Field, []), Data(Field, [b])], Running, 1)
  {
    TokensAreTokens(b);
    hide TokenOf, FieldByte, Execute, OneByte, Switch;
    SwitchLate(Counted(p), b, skip);
    IntoToken(p, b, skip, p.(state := HeaderField, nread := p.nread + 1, index := 0, header := FirstHeader(TokenOf(b))), Field);
  }

  lemma NameNext(p: Parser, text: seq<Byte>, b: Byte, skip: Answer)
    requires p.state == HeaderField && NameIs(text, p.header, p.index) && text != [] && TokenByte(b) && p.nread < HTTP_MAX_HEADER_SIZE
    ensures var r := OneByte(p, b, skip);
            r == Run(p.(nread := p.nread + 1, index := r.p.index, header := r.p.header), [Data(Field, []), Data(Field, [b])], Running, 1)
            && NameIs(text + [b], r.p.header, r.p.index)
  {
    hide TokenOf, TokenByte, FieldByte, HeaderSwitch, Execute, OneByte, Switch, NameIs;
    NameStep(text, Counted(p), b);
    NameSwitch(Counted(p), b);
    SwitchLate(Counted(p), b, skip);
    InToken(p, b, skip, FieldByte(Counted(p), b, TokenOf(b)).value, Field);
  }

  lemma NameSwitch(p: Parser, b: Byte)
    requires p.state == HeaderField && TokenByte(b) && FieldByte(p, b, TokenOf(b)).Some?
    ensures HeaderSwitch(p, b) == Out(FieldByte(p, b, TokenOf(b)).value, [], Done)
  {
    TokensAreTokens(b);
    hide TokenOf, FieldByte, TokenByte;
  }

  lemma {:induction false} NameRun(p: Parser, name: seq<Byte>, n: nat, skip: Answer)
    requires p.state == HeaderFieldStart && IsToken(name) && 1 <= n <= |name| && p.nread + |name| <= HTTP_MAX_HEADER_SIZE
    ensures var r := Feed(p, name[..n], skip);
            && r == Run(p.(state := HeaderField, nread := p.nread + n, index := r.p.index, header := r.p.header), r.events, Running, n)
            && NameIs(name[..n], r.p.header, r.p.index) && Same(r.events, [Data(Field, name[..n])])
  {
    hide Feed, OneByte, NameIs, Same, Merge, TokenByte, FirstHeader, TokenOf;
    var front, b := name[..n - 1], name[n - 1];
    assert name[..n] == front + [b] && name[..n][..n - 1] == front;
    FeedLast(p, name[..n], skip);
    if n == 1 {
      NoBytes(p, skip);
      assert name[..1] == [b];
      NameFirst(p, b, skip);
      FirstIs(b);
      OpenEvent(Field, b);
      assert [] + [Data(Field, []), Data(Field, [b])] == [Data(Field, []), Data(Field, [b])];
    } else {
      NameRun(p, name, n - 1, skip);
      var r := Feed(p, front, skip);
      NameNext(r.p, front, b, skip);
      TokenMore(r.events, Field, front, b);
    }
  }

  /** What is recognised: for every token as a field name, in whatever case, the parser is in
      the state for a header behind it if and only if it is that header's name, and it reports
      exactly the name. */
  lemma NameIsRecognised(p: Parser, name: seq<Byte>, skip: Answer)
    requires p.state == HeaderFieldStart && IsToken(name) && p.nread + |name| <= HTTP_MAX_HEADER_SIZE
    ensures var r := Feed(p, name, skip);
            && r == Run(p.(state := HeaderField, nread := p.nread + |name|, index := r.p.index, header := r.p.header), r.events, Running, |name|)
            && Same(r.events, [Data(Field, name)])
            && (r.p.header == ContentLength <==> Reads(name, "content-length"))
            && (r.p.header == TransferEncoding <==> Reads(name, "transfer-encoding"))
            && (r.p.header == Connection <==> Reads(name, "connection") || Reads(name, "proxy-connection"))
            && (r.p.header == Upgrade <==> Reads(name, "upgrade"))
  {
    hide Feed, Same, NameIs, Reads;
    NameRun(p, name, |name|, skip);
    assert name[..|name|] == name;
    WhichName(name, Feed(p, name, skip).p.header, Feed(p, name, skip).p.index);
  }

  lemma SpelledOut(name: seq<Byte>)
    ensures Spells(name, MatchingContentLength) <==> Reads(name, "content-length")
    ensures Spells(name, MatchingTransferEncoding) <==> Reads(name, "transfer-encoding")
    ensures Spells(name, MatchingConnection) <==> Reads(name, "connection")
    ensures Spells(name, MatchingProxyConnection) <==> Reads(name, "proxy-connection")
    ensures Spells(name, MatchingUpgrade) <==> Reads(name, "upgrade")
  {
    hide LowerCase;
  }

  lemma {:induction false} WhichName(name: seq<Byte>, h: HeaderState, i: nat)
    requires NameIs(name, h, i) && name != []
    ensures h == ContentLength <==> Reads(name, "content-length")
    ensures h == TransferEncoding <==> Reads(name, "transfer-encoding")
    ensures h == Connection <==> Reads(name, "connection") || Reads(name, "proxy-connection")
    ensures h == Upgrade <==> Reads(name, "upgrade")
  {
    SpelledOut(name);
    FirstLetters();
    if h == C { assert Reads(name, "c") ==> |name| == 1; }
    if h == CO { assert Reads(name, "co") ==> |name| == 2; }
    if h == CON { assert Reads(name, "con") ==> |name| == 3; }
    hide Begins, MatchedName, Reads, LowerCase;
    forall a: HeaderState, b: HeaderState | NameWord(a) && NameWord(b) && Spells(name, a) && Begins(name, b)
      ensures a == b
    {
      if a != b { OnlyOne(name, a, b); }
    }
  }

  // ---------- Values ----------

  /** The words that the value of a header is searched for. */
  predicate ValueWord(kind: HeaderState, h: HeaderState) {
    (kind == TransferEncoding && h == MatchingChunked) || (kind == Connection && (h == MatchingKeepAlive || h == MatchingClose))
  }

  lemma TrimmedMore(text: seq<Byte>, b: Byte)
    ensures Trimmed(text + [b]) == if b == SPACE then Trimmed(text) else text + [b]
  {
    assert (text + [b])[..|text|] == text;
  }

  /** What the header state says about the value read so far, of a header of this kind. */
  predicate ValueIs(kind: HeaderState, text: seq<Byte>, h: HeaderState, i: nat) {
    match h
    case General =>
      forall w: HeaderState :: ValueWord(kind, w) ==> !Begins(text, w) && !Spells(Trimmed(text), w)
    case Chunked => kind == TransferEncoding && Spells(Trimmed(text), MatchingChunked)
    case KeepAlive => kind == Connection && Spells(Trimmed(text), MatchingKeepAlive)
    case Close => kind == Connection && Spells(Trimmed(text), MatchingClose)
    case _ => ValueWord(kind, h) && Begins(text, h) && i + 1 == |text| < |MatchedName(h)|
  }

  lemma ValueLetters()
    ensures MatchedName(MatchingChunked) == "chunked" && MatchedName(MatchingKeepAlive) == "keep-alive" && MatchedName(MatchingClose) == "close"
  {
  }

  /** The letters of the words are letters, a hyphen apart. */
  lemma WordLetters(h: HeaderState, k: nat)
    requires (h == MatchingChunked || h == MatchingKeepAlive || h == MatchingClose) && k < |MatchedName(h)|
    ensures var c := MatchedName(h)[k]; 'a' <= c <= 'z' || c == '-'
  {
    ValueLetters();
    hide MatchedName;
    assert forall i :: 0 <= i < 7 ==> 'a' <= "chunked"[i] <= 'z';
    assert forall i :: 0 <= i < 10 ==> 'a' <= "keep-alive"[i] <= 'z' || "keep-alive"[i] == '-';
    assert forall i :: 0 <= i < 5 ==> 'a' <= "close"[i] <= 'z';
  }

  /** Distinct words begin differently. */
  lemma OneWord(kind: HeaderState, text: seq<Byte>, a: HeaderState, b: HeaderState)
    requires ValueWord(kind, a) && ValueWord(kind, b) && text != [] && Begins(text, a) && Begins(text, b)
    ensures a == b
  {
    ValueLetters();
    hide MatchedName, LowerCase;
    assert LowerCase(text[0]) == MatchedName(a)[0] as int == MatchedName(b)[0] as int;
    assert "keep-alive"[0] == 'k' && "close"[0] == 'c';
  }

  lemma NotSpelled(kind: HeaderState, text: seq<Byte>, b: Byte, w: HeaderState)
    requires ValueWord(kind, w) && !Begins(text, w) && !Spells(Trimmed(text), w)
    ensures !Begins(text + [b], w) && !Spells(Trimmed(text + [b]), w)
  {
    BeginsMore(text, b, w);
    TrimmedMore(text, b);
    hide Begins, MatchedName, Trimmed;
  }

  lemma SpelledThenMore(text: seq<Byte>, b: Byte, w: HeaderState)
    requires Spells(Trimmed(text), w) && b != SPACE
    ensures !Begins(text + [b], w) && !Spells(Trimmed(text + [b]), w)
  {
    BeginsMore(text, b, w);
    TrimmedMore(text, b);
    TrimmedShorter(text);
    hide Begins, MatchedName, Trimmed;
  }

  lemma {:induction false} TrimmedShorter(text: seq<Byte>)
    ensures Trimmed(text) <= text
  {
    if text != [] && text[|text| - 1] == SPACE { TrimmedShorter(text[..|text| - 1]); }
  }

  /** A complete word: anything but a space spoils it, and it is no other word. */
  lemma DoneStep(kind: HeaderState, text: seq<Byte>, h: HeaderState, w: HeaderState, b: Byte)
    requires ValueWord(kind, w) && h == AfterMatch(w) && Spells(Trimmed(text), w) && text != []
    ensures ValueIs(kind, text + [b], if b == SPACE then h else General, 0)
  {
    hide MatchedName, Trimmed, Begins, Spells;
    TrimmedMore(text, b);
    if b != SPACE {
      forall v: HeaderState | ValueWord(kind, v)
        ensures !Begins(text + [b], v) && !Spells(Trimmed(text + [b]), v)
      {
        DoneOther(kind, text, w, v, b);
      }
    }
  }

  lemma DoneOther(kind: HeaderState, text: seq<Byte>, w: HeaderState, v: HeaderState, b: Byte)
    requires ValueWord(kind, w) && ValueWord(kind, v) && Spells(Trimmed(text), w) && text != [] && b != SPACE
    ensures !Begins(text + [b], v) && !Spells(Trimmed(text + [b]), v)
  {
    TrimmedMore(text, b);
    hide MatchedName, Trimmed, Begins;
    if Begins(text + [b], v) {
      Short(text, b, v);
      TrimmedBegins(text, v);
      SomeLetters(w);
      OneWord(kind, Trimmed(text), v, w);
      SpelledThenMore(text, b, w);
    }
  }

  /** Where the value is still the start of a word. */
  lemma WordStep(kind: HeaderState, text: seq<Byte>, p: Parser, b: Byte)
    requires ValueWord(kind, p.header) && ValueIs(kind, text, p.header, p.index) && text != [] && LineByte(b)
    ensures var q := MatchByte(p, Lower(b));
            q == p.(index := q.index, header := q.header) && ValueIs(kind, text + [b], q.header, q.index)
  {
    hide Begins, MatchedName, Trimmed, Lower, LowerCase, Spells;
    var w := p.header;
    WordByte(text, b, w);
    if Begins(text + [b], w) {
      if |text| + 1 == |MatchedName(w)| { WordDone(text, b, w); }
    } else {
      forall v: HeaderState | ValueWord(kind, v)
        ensures !Begins(text + [b], v) && !Spells(Trimmed(text + [b]), v)
      {
        NotOther(kind, text, b, v, w);
      }
    }
  }

  lemma WordByte(text: seq<Byte>, b: Byte, w: HeaderState)
    requires (w == MatchingChunked || w == MatchingKeepAlive || w == MatchingClose) && LineByte(b) && Begins(text, w) && |text| < |MatchedName(w)|
    ensures Begins(text + [b], w) <==> Lower(b) == MatchedName(w)[|text|] as int
    ensures Lower(b) != 0
  {
    WordLetters(w, |text|);
    LowerIs(b, MatchedName(w)[|text|]);
    hide Begins, MatchedName;
    BeginsMore(text, b, w);
  }

  lemma WordDone(text: seq<Byte>, b: Byte, w: HeaderState)
    requires (w == MatchingChunked || w == MatchingKeepAlive || w == MatchingClose)
    requires Begins(text + [b], w) && |text| + 1 == |MatchedName(w)|
    ensures Spells(Trimmed(text + [b]), w)
  {
    WordLetters(w, |text|);
    BeginsMore(text, b, w);
    TrimmedMore(text, b);
    hide Begins, MatchedName, Trimmed;
  }

  lemma NotOther(kind: HeaderState, text: seq<Byte>, b: Byte, v: HeaderState, w: HeaderState)
    requires ValueWord(kind, v) && ValueWord(kind, w) && text != []
    requires Begins(text, w) && |text| < |MatchedName(w)| && !Begins(text + [b], w)
    ensures !Begins(text + [b], v) && !Spells(Trimmed(text + [b]), v)
  {
    TrimmedMore(text, b);
    TrimmedShorter(text);
    TrimmedBegins(text, w);
    SomeLetters(v);
    hide Begins, MatchedName, Trimmed;
    if Begins(text + [b], v) {
      Short(text, b, v);
      OneWord(kind, text, v, w);
    }
    if b == SPACE && Spells(Trimmed(text), v) {
      OneWord(kind, Trimmed(text), v, w);
    }
  }

  lemma TrimmedBegins(text: seq<Byte>, w: HeaderState)
    requires Begins(text, w)
    ensures Begins(Trimmed(text), w) && |Trimmed(text)| <= |text|
  {
    TrimmedShorter(text);
    hide Trimmed, MatchedName, LowerCase;
  }

  lemma SomeLetters(v: HeaderState)
    requires v == MatchingChunked || v == MatchingKeepAlive || v == MatchingClose
    ensures |MatchedName(v)| >= 5
  {
  }

  lemma ValueStep(kind: HeaderState, text: seq<Byte>, p: Parser, b: Byte)
    requires p.state == HeaderValue && ValueIs(kind, text, p.header, p.index) && text != [] && LineByte(b)
    ensures var o := ValueByte(p, b);
            o == Out(p.(index := o.p.index, header := o.p.header), [], Done) && ValueIs(kind, text + [b], o.p.header, o.p.index)
  {
    hide Begins, Spells, MatchedName, Trimmed, Lower, MatchByte, LowerCase;
    match p.header
    case General =>
      forall w: HeaderState | ValueWord(kind, w)
        ensures !Begins(text + [b], w) && !Spells(Trimmed(text + [b]), w)
      {
        NotSpelled(kind, text, b, w);
      }
    case Chunked => DoneStep(kind, text, Chunked, MatchingChunked, b);
    case KeepAlive => DoneStep(kind, text, KeepAlive, MatchingKeepAlive, b);
    case Close => DoneStep(kind, text, Close, MatchingClose, b);
    case _ => WordStep(kind, text, p, b);
  }

  function FirstWord(kind: HeaderState, c: Byte): HeaderState {
    if kind == TransferEncoding && c == 'c' as int then MatchingChunked
    else if kind == Connection && c == 'k' as int then MatchingKeepAlive
    else if kind == Connection && c == 'c' as int then MatchingClose
    else General
  }

  lemma FirstWordIs(kind: HeaderState, b: Byte)
    requires LineByte(b) && b != SPACE
    ensures ValueIs(kind, [b], FirstWord(kind, Lower(b)), 0)
  {
    ValueLetters();
    LowerIs(b, 'c');
    LowerIs(b, 'k');
    TrimmedMore([], b);
    assert [] + [b] == [b];
    assert "keep-alive"[0] == 'k' && "close"[0] == 'c' && "chunked"[0] == 'c';
    hide Lower, MatchedName, Trimmed, LowerCase;
  }

  /** The parser inside a value of a header of this kind, whose flag an upgrade sets at once. */
  function InValue(p: Parser, n: nat, i: nat, h: HeaderState): Parser {
    p.(state := HeaderValue, nread := p.nread + n, index := i, header := h,
       flags := if p.header == Upgrade then p.flags.(upgrade := true) else p.flags)
  }

  lemma FirstSwitch(p: Parser, b: Byte)
    requires p.state == HeaderValueStart && p.header != ContentLength && LineByte(b) && !Blank(b)
    ensures ValueStart(p, b) == Out(InValue(p, 0, 0, FirstWord(p.header, Lower(b))), [Open(Value)], Done)
  {
    hide Lower;
  }

  lemma ValueFirst(p: Parser, b: Byte, skip: Answer)
    requires p.state == HeaderValueStart && p.header != ContentLength && LineByte(b) && !Blank(b) && p.nread < HTTP_MAX_HEADER_SIZE
    ensures OneByte(p, b, skip) ==
            Run(InValue(p, 1, 0, FirstWord(p.header, Lower(b))), [Data(Value, []), Data(Value, [b])], Running, 1)
  {
    hide ValueStart, HeaderSwitch, Execute, OneByte, Switch;
    SwitchLate(Counted(p), b, skip);
    StartSwitched(Counted(p), b);
    FirstSwitch(Counted(p), b);
    IntoToken(p, b, skip, InValue(p, 1, 0, FirstWord(p.header, Lower(b))), Value);
  }

  lemma ValueNext(p: Parser, kind: HeaderState, text: seq<Byte>, b: Byte, skip: Answer)
    requires p.state == HeaderValue && ValueIs(kind, text, p.header, p.index) && text != [] && LineByte(b) && p.nread < HTTP_MAX_HEADER_SIZE
    ensures var r := OneByte(p, b, skip);
            r == Run(p.(nread := p.nread + 1, index := r.p.index, header := r.p.header), [Data(Value, []), Data(Value, [b])], Running, 1)
            && ValueIs(kind, text + [b], r.p.header, r.p.index)
  {
    ValueStep(kind, text, Counted(p), b);
    hide ValueByte, ValueStart, FieldSwitch, Execute, OneByte, Switch, ValueIs;
    SwitchLate(Counted(p), b, skip);
    InToken(p, b, skip, ValueByte(Counted(p), b).p, Value);
  }

  predicate IsLine(value: seq<Byte>) { forall i :: 0 <= i < |value| ==> LineByte(value[i]) }

  lemma {:induction false} ValueRun(p: Parser, value: seq<Byte>, n: nat, skip: Answer)
    requires p.state == HeaderValueStart && p.header != ContentLength && p.nread + |value| <= HTTP_MAX_HEADER_SIZE
    requires IsLine(value) && 1 <= n <= |value| && !Blank(value[0])
    ensures var r := Feed(p, value[..n], skip);
            && r == Run(InValue(p, n, r.p.index, r.p.header), r.events, Running, n)
            && ValueIs(p.header, value[..n], r.p.header, r.p.index) && Same(r.events, [Data(Value, value[..n])])
  {
    hide Feed, OneByte, ValueIs, Same, Merge, FirstWord, Lower;
    var front, b := value[..n - 1], value[n - 1];
    assert value[..n] == front + [b] && value[..n][..n - 1] == front;
    FeedLast(p, value[..n], skip);
    if n == 1 {
      NoBytes(p, skip);
      assert value[..1] == [b];
      ValueFirst(p, b, skip);
      FirstWordIs(p.header, b);
      OpenEvent(Value, b);
      assert [] + [Data(Value, []), Data(Value, [b])] == [Data(Value, []), Data(Value, [b])];
    } else {
      ValueRun(p, value, n - 1, skip);
      ValueRunNext(p, front, b, skip);
    }
  }

  lemma ValueRunNext(p: Parser, front: seq<Byte>, b: Byte, skip: Answer)
    requires p.nread + |front| < HTTP_MAX_HEADER_SIZE && front != [] && LineByte(b)
    requires var r := Feed(p, front, skip);
             && r == Run(InValue(p, |front|, r.p.index, r.p.header), r.events, Running, |front|)
             && ValueIs(p.header, front, r.p.header, r.p.index) && Same(r.events, [Data(Value, front)])
    ensures var r := Then(Feed(p, front, skip), OneByte(Feed(p, front, skip).p, b, skip));
            && r == Run(InValue(p, |front| + 1, r.p.index, r.p.header), r.events, Running, |front| + 1)
            && ValueIs(p.header, front + [b], r.p.header, r.p.index) && Same(r.events, [Data(Value, front + [b])])
  {
    hide Feed, OneByte, ValueIs, Same, Merge;
    var r := Feed(p, front, skip);
    ValueNext(r.p, p.header, front, b, skip);
    TokenMore(r.events, Value, front, b);
  }

  // ---------- Lengths ----------

  predicate AllDigits(text: seq<Byte>) { forall i :: 0 <= i < |text| ==> IsNum(text[i]) }

  /** Digits of a number below 2^64 - 1, and spaces behind them. */
  predicate LengthOk(value: seq<Byte>) {
    var digits := Trimmed(value);
    digits != [] && AllDigits(digits) && DecimalValue(digits) < ULLONG_MAX
  }

  function InLength(p: Parser, n: nat, length: nat): Parser {
    p.(state := HeaderValue, nread := p.nread + n, index := 0, contentLength := length)
  }

  lemma StartSwitched(p: Parser, b: Byte)
    requires p.state == HeaderValueStart
    ensures HeaderSwitch(p, b) == ValueStart(p, b)
  {
    hide ValueByte, ValueStart, FieldSwitch;
  }

  lemma LengthFirst(p: Parser, b: Byte, skip: Answer)
    requires AtLength(p) && IsNum(b) && p.nread < HTTP_MAX_HEADER_SIZE
    ensures OneByte(p, b, skip) == Run(InLength(p, 1, Digit(b)), [Data(Value, []), Data(Value, [b])], Running, 1)
  {
    hide IsNum, HeaderSwitch, ValueStart, Execute, OneByte, Switch;
    SwitchLate(Counted(p), b, skip);
    StartSwitched(Counted(p), b);
    FirstDigit(Counted(p), b);
    IntoToken(p, b, skip, InLength(p, 1, Digit(b)), Value);
  }

  lemma LengthNext(p: Parser, b: Byte, skip: Answer)
    requires p.state == HeaderValue && p.header == ContentLength && p.nread < HTTP_MAX_HEADER_SIZE
    requires b == SPACE || (IsNum(b) && p.contentLength * 10 + Digit(b) < ULLONG_MAX)
    ensures OneByte(p, b, skip) ==
            Run(p.(nread := p.nread + 1, contentLength := if b == SPACE then p.contentLength else p.contentLength * 10 + Digit(b)),
                [Data(Value, []), Data(Value, [b])], Running, 1)
  {
    hide AppendDigit, Lower, ValueStart, FieldSwitch, Execute, OneByte, Switch;
    SwitchLate(Counted(p), b, skip);
    if b != SPACE { AppendTen(p.contentLength, Digit(b)); }
    InToken(p, b, skip, p.(nread := p.nread + 1, contentLength := if b == SPACE then p.contentLength else p.contentLength * 10 + Digit(b)), Value);
  }

  lemma {:induction false} LengthRun(p: Parser, value: seq<Byte>, skip: Answer)
    requires AtLength(p) && LengthOk(value) && p.nread + |value| <= HTTP_MAX_HEADER_SIZE
    ensures var r := Feed(p, value, skip);
            r == Run(InLength(p, |value|, DecimalValue(Trimmed(value))), r.events, Running, |value|) && Same(r.events, [Data(Value, value)])
    decreases |value|
  {
    hide Feed, OneByte, Same, Merge, IsNum;
    var front, b := value[..|value| - 1], value[|value| - 1];
    assert value == front + [b];
    FeedLast(p, value, skip);
    TrimmedMore(front, b);
    hide Trimmed;
    if b == SPACE {
      LengthRun(p, front, skip);
      SpaceBehind(p, front, skip);
    } else if front == [] {
      OneDigit(p, b, skip);
    } else {
      AllTrimmed(front, b);
      LengthRun(p, front, skip);
      DigitBehind(p, front, b, skip);
    }
  }

  /** In front of a digit there are digits only. */
  lemma AllTrimmed(front: seq<Byte>, b: Byte)
    requires front != [] && LengthOk(front + [b]) && b != SPACE
    ensures Trimmed(front) == front && LengthOk(front)
    ensures IsNum(b) && DecimalValue(front + [b]) == 10 * DecimalValue(front) + Digit(b) < ULLONG_MAX
  {
    var all := front + [b];
    TrimmedMore(front, b);
    assert all[|front| - 1] == front[|front| - 1] && all[|front|] == b;
    assert IsNum(all[|front| - 1]) && IsNum(all[|front|]);
    assert Trimmed(front) == front;
    hide Trimmed;
    assert forall i :: 0 <= i < |front| ==> all[i] == front[i];
    OneMoreDigit(front, b);
  }

  lemma SpaceBehind(p: Parser, front: seq<Byte>, skip: Answer)
    requires AtLength(p) && LengthOk(front) && p.nread + |front| < HTTP_MAX_HEADER_SIZE
    requires var r := Feed(p, front, skip);
             r == Run(InLength(p, |front|, DecimalValue(Trimmed(front))), r.events, Running, |front|) && Same(r.events, [Data(Value, front)])
    ensures var r := Feed(p, front + [SPACE], skip);
            r == Run(InLength(p, |front| + 1, DecimalValue(Trimmed(front))), r.events, Running, |front| + 1) && Same(r.events, [Data(Value, front + [SPACE])])
  {
    hide Feed, OneByte, Same, Merge, DecimalValue, Trimmed, IsNum;
    var r := Feed(p, front, skip);
    assert (front + [SPACE])[..|front|] == front;
    FeedLast(p, front + [SPACE], skip);
    LengthNext(r.p, SPACE, skip);
    TokenMore(r.events, Value, front, SPACE);
  }

  lemma DigitBehind(p: Parser, front: seq<Byte>, b: Byte, skip: Answer)
    requires AtLength(p) && LengthOk(front) && Trimmed(front) == front && p.nread + |front| < HTTP_MAX_HEADER_SIZE
    requires IsNum(b) && AllDigits(front + [b]) && DecimalValue(front + [b]) == 10 * DecimalValue(front) + Digit(b) < ULLONG_MAX
    requires var r := Feed(p, front, skip);
             r == Run(InLength(p, |front|, DecimalValue(front)), r.events, Running, |front|) && Same(r.events, [Data(Value, front)])
    ensures var r := Feed(p, front + [b], skip);
            r == Run(InLength(p, |front| + 1, DecimalValue(front + [b])), r.events, Running, |front| + 1) && Same(r.events, [Data(Value, front + [b])])
  {
    hide Feed, OneByte, Same, Merge, DecimalValue, Trimmed;
    var r := Feed(p, front, skip);
    assert (front + [b])[..|front|] == front;
    FeedLast(p, front + [b], skip);
    LengthNext(r.p, b, skip);
    TokenMore(r.events, Value, front, b);
  }

  lemma OneDigit(p: Parser, b: Byte, skip: Answer)
    requires AtLength(p) && LengthOk([b]) && p.nread < HTTP_MAX_HEADER_SIZE && Trimmed([b]) == [b]
    ensures var r := Feed(p, [b], skip);
            r == Run(InLength(p, 1, DecimalValue(Trimmed([b]))), r.events, Running, 1) && Same(r.events, [Data(Value, [b])])
  {
    assert IsNum([b][0]);
    OneMoreDigit([], b);
    assert [] + [b] == [b];
    hide Feed, OneByte, Same, Merge, Trimmed, IsNum;
    FeedOne(p, b, skip);
    LengthFirst(p, b, skip);
    OpenEvent(Value, b);
  }

  // ---------- Whole values ----------

  lemma SpelledValue(text: seq<Byte>)
    ensures Spells(text, MatchingChunked) <==> Reads(text, "chunked")
    ensures Spells(text, MatchingKeepAlive) <==> Reads(text, "keep-alive")
    ensures Spells(text, MatchingClose) <==> Reads(text, "close")
  {
    hide LowerCase;
  }

  lemma WhichWord(kind: HeaderState, text: seq<Byte>, h: HeaderState, i: nat)
    requires ValueIs(kind, text, h, i) && text != []
    ensures h == Chunked <==> kind == TransferEncoding && Reads(Trimmed(text), "chunked")
    ensures h == KeepAlive <==> kind == Connection && Reads(Trimmed(text), "keep-alive")
    ensures h == Close <==> kind == Connection && Reads(Trimmed(text), "close")
  {
    var word := Trimmed(text);
    SpelledValue(word);
    TrimmedShorter(text);
    hide Reads, Trimmed;
    assert Spells(word, MatchingKeepAlive) ==> word != [] by { SomeLetters(MatchingKeepAlive); }
    assert Spells(word, MatchingClose) ==> word != [] by { SomeLetters(MatchingClose); }
    hide MatchedName;
    if ValueWord(kind, h) {
      TrimmedBegins(text, h);
      forall v: HeaderState | ValueWord(kind, v) && Spells(word, v)
        ensures false
      {
        SomeLetters(v);
        OneWord(kind, word, v, h);
      }
    } else if Spells(word, MatchingKeepAlive) && Spells(word, MatchingClose) {
      OneWord(Connection, word, MatchingKeepAlive, MatchingClose);
    }
  }

  predicate ValueFits(kind: HeaderState, value: seq<Byte>) {
    IsLine(value) && (value != [] ==> !Blank(value[0])) && (kind == ContentLength && value != [] ==> LengthOk(value))
  }

  /** The parser behind the line end's first byte. */
  function BehindValue(p: Parser, value: seq<Byte>, i: nat, h: HeaderState): Parser
    requires ValueFits(p.header, value)
  {
    p.(state := HeaderAlmostDone, nread := p.nread + |value| + 1, index := i, header := h,
       flags := if p.header == Upgrade && value != [] then p.flags.(upgrade := true) else p.flags,
       contentLength := if p.header == ContentLength && value != [] then DecimalValue(Trimmed(value)) else p.contentLength)
  }

  lemma EmptySwitch(p: Parser)
    requires p.state == HeaderValueStart
    ensures ValueStart(p, CR) == Out(p.(state := HeaderAlmostDone, index := 0, header := General), [Open(Value), CloseMark(Value)], Done)
  {
    hide Lower;
  }

  lemma EmptyValue(p: Parser, skip: Answer)
    requires p.state == HeaderValueStart && p.nread < HTTP_MAX_HEADER_SIZE
    ensures OneByte(p, CR, skip) == Run(p.(state := HeaderAlmostDone, nread := p.nread + 1, index := 0, header := General), [Data(Value, [])], Running, 1)
  {
    hide HeaderSwitch, ValueStart, Execute, OneByte, Switch, ActEvents, StartSwitch, ResponseSwitch, RequestSwitch, UrlSwitch, BodySwitch, ChunkSwitch, EndSwitch;
    SwitchLate(Counted(p), CR, skip);
    StartSwitched(Counted(p), CR);
    EmptySwitch(Counted(p));
    var q := p.(state := HeaderAlmostDone, nread := p.nread + 1, index := 0, header := General);
    Consumed(p, CR, skip, q, [Open(Value), CloseMark(Value)]);
    OpenAndClose(CR);
    assert Lead(p.state) + [Data(Value, [])] + Trail(q.state, CR) == [Data(Value, [])];
  }

  lemma OpenAndClose(b: Byte)
    ensures ActEvents([Open(Value), CloseMark(Value)], b) == [Data(Value, [])]
  {
    assert [Open(Value), CloseMark(Value)][1..] == [CloseMark(Value)];
    NoEvents(CloseMark(Value), b);
  }

  lemma EndSwitched(p: Parser)
    requires p.state == HeaderValue
    ensures HeaderSwitch(p, CR) == Out(p.(state := HeaderAlmostDone), [CloseMark(Value)], Done)
  {
    hide Lower, MatchByte, ValueStart, FieldSwitch;
  }

  lemma ValueEnd(p: Parser, skip: Answer)
    requires p.state == HeaderValue && p.nread < HTTP_MAX_HEADER_SIZE
    ensures OneByte(p, CR, skip) == Run(p.(state := HeaderAlmostDone, nread := p.nread + 1), [Data(Value, [])], Running, 1)
  {
    hide HeaderSwitch, Execute, OneByte, Switch;
    SwitchLate(Counted(p), CR, skip);
    EndSwitched(Counted(p));
    OutOfToken(p, CR, skip, p.(state := HeaderAlmostDone, nread := p.nread + 1), Value);
  }

  /** A value and the byte behind it: what it says is recognised, in whatever case and with
      whatever spaces behind it, and it is reported exactly. */
  lemma ValueIsRecognised(p: Parser, value: seq<Byte>, skip: Answer)
    requires p.state == HeaderValueStart && ValueFits(p.header, value) && p.nread + |value| < HTTP_MAX_HEADER_SIZE
    ensures var r := Feed(p, value + [CR], skip);
            && r == Run(BehindValue(p, value, r.p.index, r.p.header), r.events, Running, |value| + 1)
            && Same(r.events, [Data(Value, value)])
            && (r.p.header == Chunked <==> p.header == TransferEncoding && Reads(Trimmed(value), "chunked"))
            && (r.p.header == KeepAlive <==> p.header == Connection && Reads(Trimmed(value), "keep-alive"))
            && (r.p.header == Close <==> p.header == Connection && Reads(Trimmed(value), "close"))
  {
    hide Feed, OneByte, Same, Merge, Reads, ValueIs, LengthOk, DecimalValue, Trimmed, AtLength, IsLine;
    if value == [] {
      assert value + [CR] == [CR];
      FeedOne(p, CR, skip);
      EmptyValue(p, skip);
      NothingRead();
      SameSelf([Data(Value, [])]);
    } else {
      ValueText(p, value, skip);
      var r := Feed(p, value, skip);
      TextEnded(p, value, r, skip);
    }
  }

  lemma TextEnded(p: Parser, value: seq<Byte>, r: Run, skip: Answer)
    requires r == Feed(p, value, skip) && r.status == Running && r.p.state == HeaderValue && r.p.nread < HTTP_MAX_HEADER_SIZE
    requires Same(r.events, [Data(Value, value)])
    ensures Feed(p, value + [CR], skip) ==
            Run(r.p.(state := HeaderAlmostDone, nread := r.p.nread + 1), r.events + [Data(Value, [])], Running, r.used + 1)
    ensures Same(r.events + [Data(Value, [])], [Data(Value, value)])
  {
    hide Feed, OneByte, Same, Merge;
    assert (value + [CR])[..|value|] == value;
    FeedLast(p, value + [CR], skip);
    ValueEnd(r.p, skip);
    TokenAgain(r.events, Value, value);
  }

  lemma ValueText(p: Parser, value: seq<Byte>, skip: Answer)
    requires p.state == HeaderValueStart && ValueFits(p.header, value) && value != [] && p.nread + |value| < HTTP_MAX_HEADER_SIZE
    ensures var r := Feed(p, value, skip);
            && r == Run(BehindValue(p, value, r.p.index, r.p.header).(state := HeaderValue, nread := p.nread + |value|), r.events, Running, |value|)
            && Same(r.events, [Data(Value, value)])
            && (r.p.header == Chunked <==> p.header == TransferEncoding && Reads(Trimmed(value), "chunked"))
            && (r.p.header == KeepAlive <==> p.header == Connection && Reads(Trimmed(value), "keep-alive"))
            && (r.p.header == Close <==> p.header == Connection && Reads(Trimmed(value), "close"))
  {
    hide Feed, OneByte, Same, Merge, Reads, ValueIs, LengthOk, DecimalValue, Trimmed;
    assert value[..|value|] == value;
    if p.header == ContentLength {
      LengthRun(p, value, skip);
    } else {
      ValueRun(p, value, |value|, skip);
      WhichWord(p.header, value, Feed(p, value, skip).p.header, Feed(p, value, skip).p.index);
    }
  }

  lemma NothingRead()
    ensures Trimmed([]) == [] && !Reads([], "chunked") && !Reads([], "keep-alive") && !Reads([], "close")
  {
  }

  // ---------- Header lines ----------

  /** A header as sent: a name, blanks behind the colon, and a value. */
  datatype Header = Header(name: seq<Byte>, pad: seq<Byte>, value: seq<Byte>)

  predicate SaysChunked(h: Header) { Reads(h.name, "transfer-encoding") && Reads(Trimmed(h.value), "chunked") }

  predicate AboutConnection(h: Header) { Reads(h.name, "connection") || Reads(h.name, "proxy-connection") }

  predicate SaysKeepAlive(h: Header) { AboutConnection(h) && Reads(Trimmed(h.value), "keep-alive") }

  predicate SaysClose(h: Header) { AboutConnection(h) && Reads(Trimmed(h.value), "close") }

  predicate SaysUpgrade(h: Header) { Reads(h.name, "upgrade") && h.value != [] }

  predicate SaysLength(h: Header) { Reads(h.name, "content-length") && h.value != [] }

  /** A line that can be sent: a length is one that can be stored. */
  predicate Sendable(h: Header) {
    && IsToken(h.name) && (forall i :: 0 <= i < |h.pad| ==> Blank(h.pad[i]))
    && IsLine(h.value) && (h.value != [] ==> !Blank(h.value[0]))
    && (SaysLength(h) ==> LengthOk(h.value))
  }

  const COLON: Byte := 58

  function HeaderLine(h: Header): seq<Byte> { h.name + [COLON] + h.pad + h.value + CRLF }

  function FlagsAfter(f: Flags, h: Header): Flags {
    f.(chunked := f.chunked || SaysChunked(h), keepAlive := f.keepAlive || SaysKeepAlive(h),
       close := f.close || SaysClose(h), upgrade := f.upgrade || SaysUpgrade(h))
  }

  function LengthAfter(n: nat, h: Header): nat
    requires Sendable(h)
  {
    if SaysLength(h) then DecimalValue(Trimmed(h.value)) else n
  }

  lemma NameEnd(p: Parser, skip: Answer)
    requires p.state == HeaderField && p.nread < HTTP_MAX_HEADER_SIZE
    ensures OneByte(p, COLON, skip) == Run(p.(state := HeaderValueStart, nread := p.nread + 1), [Data(Field, [])], Running, 1)
  {
    hide FieldByte, ValueByte, ValueStart, Execute, OneByte, Switch;
    SwitchLate(Counted(p), COLON, skip);
    OutOfToken(p, COLON, skip, p.(state := HeaderValueStart, nread := p.nread + 1), Field);
  }

  lemma {:induction false} PadRun(p: Parser, pad: seq<Byte>, skip: Answer)
    requires p.state == HeaderValueStart && p.nread + |pad| <= HTTP_MAX_HEADER_SIZE && forall i :: 0 <= i < |pad| ==> Blank(pad[i])
    ensures Feed(p, pad, skip) == Run(p.(nread := p.nread + |pad|), [], Running, |pad|)
    decreases |pad|
  {
    hide Feed, OneByte;
    if pad == [] {
      NoBytes(p, skip);
    } else {
      var b := pad[|pad| - 1];
      PadRun(p, pad[..|pad| - 1], skip);
      FeedLast(p, pad, skip);
      PadByte(p.(nread := p.nread + |pad| - 1), b, skip);
    }
  }

  lemma PadByte(p: Parser, b: Byte, skip: Answer)
    requires p.state == HeaderValueStart && Blank(b) && p.nread < HTTP_MAX_HEADER_SIZE
    ensures OneByte(p, b, skip) == Run(p.(nread := p.nread + 1), [], Running, 1)
  {
    hide HeaderSwitch, OneByte, Execute, Switch, ValueStart;
    SwitchLate(Counted(p), b, skip);
    StartSwitched(Counted(p), b);
    PadSwitch(Counted(p), b);
    Quiet(p, b, skip, Counted(p));
  }

  lemma PadSwitch(p: Parser, b: Byte)
    requires p.state == HeaderValueStart && Blank(b)
    ensures ValueStart(p, b) == Out(p, [], Done)
  {
    hide Lower;
  }

  /** The parser behind a header line, with the flag that the header set. */
  function Flagged(p: Parser): Parser {
    p.(state := HeaderValueLws,
       flags := if p.header == KeepAlive then p.flags.(keepAlive := true)
                else if p.header == Close then p.flags.(close := true)
                else if p.header == Chunked then p.flags.(chunked := true) else p.flags)
  }

  lemma LineEnd(p: Parser, skip: Answer)
    requires p.state == HeaderAlmostDone && p.nread < HTTP_MAX_HEADER_SIZE
    ensures OneByte(p, LF, skip) == Run(Flagged(p).(nread := p.nread + 1), [], Running, 1)
  {
    hide HeaderSwitch, Execute, OneByte, Switch, Flagged, Counted;
    FlaggedIs(p);
    SwitchLate(Counted(p), LF, skip);
    LineSwitch(Counted(p));
    Quiet(p, LF, skip, Flagged(Counted(p)));
  }

  lemma FlaggedIs(p: Parser)
    requires p.state == HeaderAlmostDone
    ensures Counted(p) == p.(nread := p.nread + 1) && Flagged(Counted(p)) == Flagged(p).(nread := p.nread + 1)
    ensures Flagged(Counted(p)).state == HeaderValueLws
  {
  }

  lemma LineSwitch(p: Parser)
    requires p.state == HeaderAlmostDone
    ensures HeaderSwitch(p, LF) == Out(Flagged(p), [], Done)
  {
    hide FieldSwitch, ValueByte, ValueStart;
  }
}
