/** The URLs of request lines: which ones the parser accepts, and that it reports them. */
module HttpUrls {
  import opened Common
  import opened HttpSwitch
  import opened HttpRun
  import opened HttpInvariant
  import opened HttpExecute
  import opened HttpMessages
  import opened HttpHeaders

  // ---------- The forms of a URL ----------

  predicate Printable(b: Byte) { 33 <= b <= 126 }

  predicate Letter(b: Byte) { 'a' as int <= b <= 'z' as int || 'A' as int <= b <= 'Z' as int }

  /** A byte of a host, a port or user information. */
  predicate ServerByte(b: Byte) {
    Letter(b) || '0' as int <= b <= '9' as int
    || b as char in {'-', '_', '.', '!', '~', '*', '\'', '(', ')', '%', ';', ':', '&', '=', '+', '$', ',', '[', ']'}
  }

  const AT: Byte := 64

  /** n bytes of a server, in which no two "@" are adjacent, and then nothing, or a path or
      query of any printable bytes. */
  predicate ServerForm(url: seq<Byte>, n: nat) {
    && url != [] && n <= |url|
    && (forall i :: 0 <= i < n ==> ServerByte(url[i]) || url[i] == AT)
    && (forall i :: 0 < i < n ==> url[i - 1] != AT || url[i] != AT)
    && (n < |url| ==> url[n] == '/' as int || url[n] == '?' as int)
    && (forall i :: n <= i < |url| ==> Printable(url[i]))
  }

  /** A scheme of k letters, "://", and n bytes of a server. */
  predicate AbsoluteForm(url: seq<Byte>, k: nat, n: nat) {
    && 1 <= k && k + 3 <= |url|
    && (forall i :: 0 <= i < k ==> Letter(url[i]))
    && url[k] == ':' as int && url[k + 1] == '/' as int && url[k + 2] == '/' as int
    && ServerForm(url[k + 3..], n)
  }

  /** A path, or "*", of printable bytes. */
  predicate OriginForm(url: seq<Byte>) {
    url != [] && (url[0] == '/' as int || url[0] == '*' as int) && forall i :: 0 <= i < |url| ==> Printable(url[i])
  }

  ghost predicate UrlOfRequest(m: Method, url: seq<Byte>) {
    if m == CONNECT then exists n: nat :: ServerForm(url, n)
    else OriginForm(url) || exists k: nat, n: nat :: AbsoluteForm(url, k, n)
  }

  // ---------- Single bytes ----------

  /** Path, query and fragment take every printable byte. */
  predicate Tail(s: State) {
    s == ReqPath || s == ReqQueryStringStart || s == ReqQueryString || s == ReqFragmentStart || s == ReqFragment
  }

  lemma AlphaIs(b: Byte)
    ensures IsAlpha(b) <==> Letter(b)
  {
  }

  lemma ServerIs(b: Byte)
    ensures IsUserinfoChar(b) || b == '[' as int || b == ']' as int <==> ServerByte(b)
  {
    AlphaIs(b);
    hide IsAlpha, Letter;
  }

  lemma TailByte(s: State, b: Byte)
    requires Tail(s)
    ensures if Printable(b) then Tail(ParseUrlChar(s, b)) else ParseUrlChar(s, b) == Dead
  {
  }

  predicate InServer(s: State) { s == ReqServerStart || s == ReqServer || s == ReqServerWithAt }

  /** One more byte behind the scheme. */
  lemma AfterScheme(s: State, b: Byte)
    requires InServer(s)
    ensures ParseUrlChar(s, b) ==
            if b == '/' as int then ReqPath
            else if b == '?' as int then ReqQueryStringStart
            else if b == AT && s != ReqServerWithAt then ReqServerWithAt
            else if ServerByte(b) then ReqServer else Dead
  {
    ServerIs(b);
    hide IsUserinfoChar;
  }

  lemma InScheme(s: State, b: Byte)
    ensures ParseUrlChar(ReqSpacesBeforeUrl, b) ==
            if b == '/' as int || b == '*' as int then ReqPath else if Letter(b) then ReqSchema else Dead
    ensures ParseUrlChar(ReqSchema, b) == if Letter(b) then ReqSchema else if b == ':' as int then ReqSchemaSlash else Dead
    ensures ParseUrlChar(ReqSchemaSlash, b) == if b == '/' as int then ReqSchemaSlashSlash else Dead
    ensures ParseUrlChar(ReqSchemaSlashSlash, b) == if b == '/' as int then ReqServerStart else Dead
  {
    AlphaIs(b);
    hide IsAlpha;
  }

  // ---------- A URL of the right form ----------

  /** Where the parts of a URL begin: k letters of a scheme, or none; the server from a to e. */
  datatype Parts = Parts(k: nat, a: nat, e: nat)

  predicate Shaped(m: Method, url: seq<Byte>, x: Parts) {
    && url != [] && x.a <= x.e <= |url|
    && (forall i :: x.a <= i < x.e ==> ServerByte(url[i]) || url[i] == AT)
    && (forall i :: x.a < i < x.e ==> url[i - 1] != AT || url[i] != AT)
    && (forall i :: x.e <= i < |url| ==> Printable(url[i]))
    && (if m == CONNECT then x.k == x.a == 0 && (x.e < |url| ==> url[x.e] == '/' as int || url[x.e] == '?' as int)
        else if x.k == 0 then x.a == x.e == 0 && (url[0] == '/' as int || url[0] == '*' as int)
        else
          && x.a == x.k + 3 < |url| && (forall i :: 0 <= i < x.k ==> Letter(url[i]))
          && url[x.k] == ':' as int && url[x.k + 1] == '/' as int && url[x.k + 2] == '/' as int
          && (x.e < |url| ==> url[x.e] == '/' as int || url[x.e] == '?' as int))
  }

  /** The state behind the first i bytes. */
  predicate StateAt(m: Method, url: seq<Byte>, x: Parts, i: nat, s: State)
    requires i <= |url|
  {
    if i == 0 then s == (if m == CONNECT then ReqServerStart else ReqSpacesBeforeUrl)
    else if i <= x.k then s == ReqSchema
    else if i < x.a then s == (if i == x.k + 1 then ReqSchemaSlash else ReqSchemaSlashSlash)
    else if i == x.a then s == ReqServerStart
    else if i <= x.e then s == (if url[i - 1] == AT then ReqServerWithAt else ReqServer)
    else Tail(s)
  }

  lemma StateNext(m: Method, url: seq<Byte>, x: Parts, i: nat, s: State)
    requires Shaped(m, url, x) && i < |url| && StateAt(m, url, x, i, s)
    ensures StateAt(m, url, x, i + 1, ParseUrlChar(s, url[i]))
  {
    hide ParseUrlChar, Letter, ServerByte, Printable;
    if m != CONNECT && i < x.a {
      SchemeNext(m, url, x, i, s);
    } else if i < x.e || (i == x.a && (m == CONNECT || x.k > 0)) {
      ServerNext(m, url, x, i, s);
    } else {
      TailNext(m, url, x, i, s);
    }
  }

  lemma SchemeNext(m: Method, url: seq<Byte>, x: Parts, i: nat, s: State)
    requires Shaped(m, url, x) && i < |url| && StateAt(m, url, x, i, s) && m != CONNECT && i < x.a
    ensures StateAt(m, url, x, i + 1, ParseUrlChar(s, url[i]))
  {
    hide ParseUrlChar, ServerByte, Printable;
    InScheme(s, url[i]);
  }

  lemma ServerNext(m: Method, url: seq<Byte>, x: Parts, i: nat, s: State)
    requires Shaped(m, url, x) && i < |url| && StateAt(m, url, x, i, s) && x.a <= i && (m == CONNECT || x.k > 0)
    requires i < x.e || i == x.a
    ensures StateAt(m, url, x, i + 1, ParseUrlChar(s, url[i]))
  {
    hide ParseUrlChar, Letter, Printable, ServerByte;
    AfterScheme(s, url[i]);
    Separators();
  }

  lemma Separators()
    ensures !ServerByte(AT) && !ServerByte('/' as int) && !ServerByte('?' as int)
  {
  }

  lemma TailNext(m: Method, url: seq<Byte>, x: Parts, i: nat, s: State)
    requires Shaped(m, url, x) && i < |url| && StateAt(m, url, x, i, s) && x.e <= i && (m == CONNECT || x.k > 0 ==> i > x.a)
    ensures StateAt(m, url, x, i + 1, ParseUrlChar(s, url[i]))
  {
    hide ParseUrlChar, Letter, ServerByte, Printable;
    InScheme(s, url[i]);
    if Tail(s) { TailByte(s, url[i]); }
    if InServer(s) { AfterScheme(s, url[i]); }
  }

  lemma PartsOf(m: Method, url: seq<Byte>) returns (x: Parts)
    requires UrlOfRequest(m, url)
    ensures Shaped(m, url, x)
  {
    hide Letter, ServerByte, Printable;
    if m == CONNECT {
      var n: nat :| ServerForm(url, n);
      x := Parts(0, 0, n);
    } else if OriginForm(url) {
      x := Parts(0, 0, 0);
    } else {
      var k: nat, n: nat :| AbsoluteForm(url, k, n);
      x := Parts(k, k + 3, k + 3 + n);
      var rest := url[k + 3..];
      assert forall i :: k + 3 <= i < |url| ==> url[i] == rest[i - (k + 3)];
    }
  }

  lemma FromParts(m: Method, url: seq<Byte>, x: Parts)
    requires Shaped(m, url, x)
    ensures UrlOfRequest(m, url)
  {
    hide Letter, ServerByte, Printable;
    if m == CONNECT {
      assert ServerForm(url, x.e);
    } else if x.k == 0 {
      assert OriginForm(url);
    } else {
      var rest := url[x.k + 3..];
      assert forall i :: 0 <= i < |rest| ==> rest[i] == url[i + x.a];
      assert ServerForm(rest, x.e - x.a);
      assert AbsoluteForm(url, x.k, x.e - x.a);
    }
  }

  // ---------- Any other URL ----------

  /** Neither a blank nor an end of line. */
  predicate UrlBytes(url: seq<Byte>) {
    url != [] && forall i :: 0 <= i < |url| ==> url[i] != SPACE && url[i] != CR && url[i] != LF
  }

  /** The states, walked without the parser around them; Dead stays dead. */
  function Walk(s: State, url: seq<Byte>): State {
    if url == [] then s else ParseUrlChar(Walk(s, url[..|url| - 1]), url[|url| - 1])
  }

  function StartOf(m: Method): State { if m == CONNECT then ReqServerStart else ReqSpacesBeforeUrl }

  /** Where a URL may end. */
  predicate MayEnd(s: State) { Tail(s) || s == ReqServer || s == ReqServerWithAt }

  lemma {:induction false} WalkShaped(m: Method, url: seq<Byte>, x: Parts, i: nat)
    requires Shaped(m, url, x) && i <= |url|
    ensures StateAt(m, url, x, i, Walk(StartOf(m), url[..i]))
  {
    hide Shaped, StateAt, ParseUrlChar;
    if i == 0 {
      StartsAt(m, url, x);
    } else {
      WalkShaped(m, url, x, i - 1);
      assert url[..i][..i - 1] == url[..i - 1];
      StateNext(m, url, x, i - 1, Walk(StartOf(m), url[..i - 1]));
    }
  }

  lemma StartsAt(m: Method, url: seq<Byte>, x: Parts)
    ensures StateAt(m, url, x, 0, Walk(StartOf(m), url[..0]))
  {
  }

  lemma EndsWell(m: Method, url: seq<Byte>, x: Parts, s: State)
    requires Shaped(m, url, x) && StateAt(m, url, x, |url|, s)
    ensures MayEnd(s)
  {
    hide Letter, ServerByte, Printable;
  }

  /** What a state that is not dead says about the text behind it, with the parts found. */
  predicate ShapeOf(m: Method, url: seq<Byte>, x: Parts, s: State) {
    match s
    case ReqSchema => m != CONNECT && url != [] && forall i :: 0 <= i < |url| ==> Letter(url[i])
    case ReqSchemaSlash => SchemeAnd(m, url, 1)
    case ReqSchemaSlashSlash => SchemeAnd(m, url, 2)
    case ReqServerStart => if m == CONNECT then url == [] else SchemeAnd(m, url, 3)
    case ReqServer => Shaped(m, url, x) && x.e == |url| > x.a && url[|url| - 1] != AT && (m == CONNECT || x.k > 0)
    case ReqServerWithAt => Shaped(m, url, x) && x.e == |url| > x.a && url[|url| - 1] == AT && (m == CONNECT || x.k > 0)
    case ReqSpacesBeforeUrl => m != CONNECT && url == []
    case _ => Tail(s) && Shaped(m, url, x) && x.e < |url|
  }

  /** Letters, and n bytes of "://". */
  predicate SchemeAnd(m: Method, url: seq<Byte>, n: nat)
    requires n <= 3
  {
    && m != CONNECT && |url| > n && (forall i :: 0 <= i < |url| - n ==> Letter(url[i]))
    && (n >= 1 ==> url[|url| - n] == ':' as int) && (n >= 2 ==> url[|url| - n + 1] == '/' as int) && (n == 3 ==> url[|url| - 1] == '/' as int)
  }

  lemma SchemeShape(m: Method, url: seq<Byte>, s: State, b: Byte)
    requires ShapeOf(m, url, Parts(0, 0, 0), s) && (s == ReqSpacesBeforeUrl || s == ReqSchema || s == ReqSchemaSlash || s == ReqSchemaSlashSlash)
    requires ParseUrlChar(s, b) != Dead
    ensures ShapeOf(m, url + [b], Parts(0, 0, 0), ParseUrlChar(s, b))
  {
    hide ParseUrlChar, Letter, ServerByte, Printable;
    InScheme(s, b);
    SlashIsPrintable();
  }

  /** One more byte of a server. */
  lemma ServerShape(m: Method, url: seq<Byte>, x: Parts, b: Byte)
    requires Shaped(m, url, x) && x.e == |url| > x.a && (m == CONNECT || x.k > 0)
    requires ServerByte(b) || (b == AT && url[|url| - 1] != AT)
    ensures Shaped(m, url + [b], x.(e := |url| + 1))
  {
    hide Letter, ServerByte, Printable;
    Separators();
    var more := url + [b];
    assert more[|url|] == b && forall i :: 0 <= i < |url| ==> more[i] == url[i];
    assert forall i :: x.a < i < |more| ==> more[i - 1] != AT || more[i] != AT;
  }

  /** The byte that ends the server, or one behind it. */
  lemma TailShape(m: Method, url: seq<Byte>, x: Parts, b: Byte)
    requires Shaped(m, url, x) && Printable(b) && (x.e < |url| || ((b == '/' as int || b == '?' as int) && (m == CONNECT || x.k > 0)))
    ensures Shaped(m, url + [b], x)
  {
    hide Letter, ServerByte, Printable;
  }

  /** The first byte behind the scheme, or of a server without one. */
  lemma StartShape(m: Method, url: seq<Byte>, b: Byte)
    requires ShapeOf(m, url, Parts(0, 0, 0), ReqServerStart)
    requires ServerByte(b) || b == AT || b == '/' as int || b == '?' as int
    ensures var k := if m == CONNECT then 0 else |url| - 3;
            Shaped(m, url + [b], Parts(k, |url|, if b == '/' as int || b == '?' as int then |url| else |url| + 1))
  {
    hide Letter, ServerByte, Printable;
    SlashIsPrintable();
  }

  lemma StartCase(m: Method, url: seq<Byte>, b: Byte) returns (x: Parts)
    requires ShapeOf(m, url, Parts(0, 0, 0), ReqServerStart) && ParseUrlChar(ReqServerStart, b) != Dead
    ensures ShapeOf(m, url + [b], x, ParseUrlChar(ReqServerStart, b))
  {
    hide ParseUrlChar, Letter, ServerByte, Printable, Shaped;
    AfterScheme(ReqServerStart, b);
    SlashIsPrintable();
    StartShape(m, url, b);
    x := Parts(if m == CONNECT then 0 else |url| - 3, |url|, if b == '/' as int || b == '?' as int then |url| else |url| + 1);
  }

  lemma ServerCase(m: Method, url: seq<Byte>, x: Parts, s: State, b: Byte) returns (x': Parts)
    requires ShapeOf(m, url, x, s) && (s == ReqServer || s == ReqServerWithAt) && ParseUrlChar(s, b) != Dead
    ensures ShapeOf(m, url + [b], x', ParseUrlChar(s, b))
  {
    hide ParseUrlChar, Letter, ServerByte, Printable, Shaped;
    AfterScheme(s, b);
    SlashIsPrintable();
    if b == '/' as int || b == '?' as int {
      x' := x;
      TailShape(m, url, x, b);
    } else {
      x' := x.(e := |url| + 1);
      ServerShape(m, url, x, b);
    }
  }

  lemma TailCase(m: Method, url: seq<Byte>, x: Parts, s: State, b: Byte)
    requires ShapeOf(m, url, x, s) && Tail(s) && ParseUrlChar(s, b) != Dead
    ensures ShapeOf(m, url + [b], x, ParseUrlChar(s, b))
  {
    hide ParseUrlChar, Letter, ServerByte, Printable, Shaped;
    TailByte(s, b);
    TailShape(m, url, x, b);
  }

  lemma NoPartsYet(m: Method, url: seq<Byte>, x: Parts, s: State)
    requires ShapeOf(m, url, x, s) && s != ReqServer && s != ReqServerWithAt && !Tail(s)
    ensures ShapeOf(m, url, Parts(0, 0, 0), s)
    ensures s == ReqSpacesBeforeUrl || s == ReqSchema || s == ReqSchemaSlash || s == ReqSchemaSlashSlash || s == ReqServerStart
  {
    hide Shaped, SchemeAnd, Letter;
  }

  lemma ShapeNext(m: Method, url: seq<Byte>, x: Parts, s: State, b: Byte) returns (x': Parts)
    requires ShapeOf(m, url, x, s) && ParseUrlChar(s, b) != Dead
    ensures ShapeOf(m, url + [b], x', ParseUrlChar(s, b))
  {
    hide ShapeOf, ParseUrlChar;
    if s == ReqServer || s == ReqServerWithAt {
      x' := ServerCase(m, url, x, s, b);
    } else if Tail(s) {
      x' := x;
      TailCase(m, url, x, s, b);
    } else {
      NoPartsYet(m, url, x, s);
      if s == ReqServerStart {
        x' := StartCase(m, url, b);
      } else {
        x' := Parts(0, 0, 0);
        SchemeShape(m, url, s, b);
      }
    }
  }

  lemma SlashIsPrintable()
    ensures Printable('/' as int) && Printable('?' as int) && Printable('*' as int)
    ensures !ServerByte(AT) && !ServerByte('/' as int) && !ServerByte('?' as int)
  {
  }

  lemma {:induction false} WalkIsShaped(m: Method, url: seq<Byte>) returns (x: Parts)
    requires Walk(StartOf(m), url) != Dead
    ensures ShapeOf(m, url, x, Walk(StartOf(m), url))
  {
    hide ShapeOf, ParseUrlChar;
    if url == [] {
      x := Parts(0, 0, 0);
      EmptyShape(m);
    } else {
      var front := url[..|url| - 1];
      assert url == front + [url[|url| - 1]];
      StaysDead(url[|url| - 1]);
      x := WalkIsShaped(m, front);
      x := ShapeNext(m, front, x, Walk(StartOf(m), front), url[|url| - 1]);
    }
  }

  lemma EmptyShape(m: Method)
    ensures ShapeOf(m, [], Parts(0, 0, 0), StartOf(m))
  {
  }

  lemma StaysDead(b: Byte)
    ensures ParseUrlChar(Dead, b) == Dead
  {
  }

  lemma ShapeEnds(m: Method, url: seq<Byte>, x: Parts, s: State)
    requires ShapeOf(m, url, x, s) && MayEnd(s)
    ensures Shaped(m, url, x)
  {
    hide Shaped;
  }

  /** The walk ends where a URL may end if and only if the text is one. */
  lemma WalkIff(m: Method, url: seq<Byte>)
    ensures url != [] && MayEnd(Walk(StartOf(m), url)) <==> UrlOfRequest(m, url)
  {
    hide ShapeOf, Walk, Shaped, UrlOfRequest, StateAt;
    var s := Walk(StartOf(m), url);
    if UrlOfRequest(m, url) {
      var x := PartsOf(m, url);
      assert url[..|url|] == url;
      WalkShaped(m, url, x, |url|);
      EndsWell(m, url, x, s);
      SomeUrl(m, url, x);
    }
    if url != [] && MayEnd(s) {
      var x := WalkIsShaped(m, url);
      ShapeEnds(m, url, x, s);
      FromParts(m, url, x);
    }
  }

  lemma SomeUrl(m: Method, url: seq<Byte>, x: Parts)
    requires Shaped(m, url, x)
    ensures url != []
  {
  }

  // ---------- The parser over a URL ----------

  /** No byte that ends a URL. */
  predicate Unended(b: Byte) { b != SPACE && b != CR && b != LF }

  lemma UrlSwitched(p: Parser, b: Byte)
    requires Unended(b) && (UrlState(p.state) || p.state == ReqSpacesBeforeUrl)
    ensures UrlSwitch(p, b) ==
            if p.state == ReqSpacesBeforeUrl then UrlByte(p.(state := StartOf(p.verb)), b, [Open(Url)]) else UrlByte(p, b, [])
  {
    hide UrlByte;
  }

  /** One more byte of a URL. */
  lemma UrlNext(p: Parser, b: Byte, skip: Answer)
    requires Unended(b) && p.nread < HTTP_MAX_HEADER_SIZE && (UrlState(p.state) || p.state == ReqSpacesBeforeUrl)
    ensures var s := ParseUrlChar(if p.state == ReqSpacesBeforeUrl then StartOf(p.verb) else p.state, b);
            var r := OneByte(p, b, skip);
            if s == Dead then r.status != Running
            else r == Run(p.(nread := p.nread + 1, state := s), [Data(Url, []), Data(Url, [b])], Running, 1)
  {
    hide ParseUrlChar, UrlSwitch, Execute, OneByte, Switch;
    var q := Counted(p);
    SwitchEarly(q, b, skip);
    UrlSwitched(q, b);
    var from := if p.state == ReqSpacesBeforeUrl then StartOf(p.verb) else p.state;
    var s := ParseUrlChar(from, b);
    UrlStates(from, b);
    if s == Dead {
      ExecutedToFailure(q, b, skip);
      FailedByte(p, b, skip);
    } else if p.state == ReqSpacesBeforeUrl {
      IntoToken(p, b, skip, q.(state := s), Url);
    } else {
      InToken(p, b, skip, q.(state := s), Url);
    }
  }

  lemma SwitchEarly(p: Parser, ch: Byte, skip: Answer)
    ensures GroupOf(p.state) == InStart ==> Switch(p, ch, skip) == StartSwitch(p, ch)
    ensures GroupOf(p.state) == InResponse ==> Switch(p, ch, skip) == ResponseSwitch(p, ch)
    ensures GroupOf(p.state) == InRequest ==> Switch(p, ch, skip) == RequestSwitch(p, ch)
    ensures GroupOf(p.state) == InUrl ==> Switch(p, ch, skip) == UrlSwitch(p, ch)
  {
    hide GroupOf, StartSwitch, ResponseSwitch, RequestSwitch, UrlSwitch, HeaderSwitch, EndSwitch, ChunkSwitch, BodySwitch;
  }

  predicate UrlText(url: seq<Byte>) { url != [] && forall i :: 0 <= i < |url| ==> Unended(url[i]) }

  lemma {:induction false} UrlRun(p: Parser, url: seq<Byte>, n: nat, skip: Answer)
    requires p.state == ReqSpacesBeforeUrl && UrlText(url) && 1 <= n <= |url| && p.nread + |url| <= HTTP_MAX_HEADER_SIZE
    ensures var s, r := Walk(StartOf(p.verb), url[..n]), Feed(p, url[..n], skip);
            if s == Dead then r.status != Running
            else r == Run(p.(nread := p.nread + n, state := s), r.events, Running, n) && Same(r.events, [Data(Url, url[..n])]) && UrlState(s)
  {
    hide Feed, OneByte, Same, Merge, Walk, ParseUrlChar, StartOf, UrlState;
    var front, b := url[..n - 1], url[n - 1];
    assert url[..n] == front + [b];
    if n == 1 {
      assert front == [];
      UrlRunFirst(p, b, skip);
    } else {
      UrlRun(p, url, n - 1, skip);
      UrlRunNext(p, front, b, skip);
    }
  }

  lemma WalkMore(s: State, url: seq<Byte>, b: Byte)
    ensures Walk(s, url + [b]) == ParseUrlChar(Walk(s, url), b)
    ensures ParseUrlChar(Walk(s, url), b) == Dead || UrlState(ParseUrlChar(Walk(s, url), b))
  {
    hide ParseUrlChar;
    assert (url + [b])[..|url|] == url;
    UrlStates(Walk(s, url), b);
  }

  lemma UrlRunFirst(p: Parser, b: Byte, skip: Answer)
    requires p.state == ReqSpacesBeforeUrl && Unended(b) && p.nread < HTTP_MAX_HEADER_SIZE
    ensures var s, r := Walk(StartOf(p.verb), [] + [b]), Feed(p, [] + [b], skip);
            if s == Dead then r.status != Running
            else r == Run(p.(nread := p.nread + 1, state := s), r.events, Running, 1) && Same(r.events, [Data(Url, [] + [b])]) && UrlState(s)
  {
    hide Feed, OneByte, Same, Merge, ParseUrlChar, StartOf, UrlState;
    assert [] + [b] == [b];
    WalkMore(StartOf(p.verb), [], b);
    FeedOne(p, b, skip);
    UrlNext(p, b, skip);
    OpenEvent(Url, b);
  }

  lemma UrlRunNext(p: Parser, front: seq<Byte>, b: Byte, skip: Answer)
    requires p.state == ReqSpacesBeforeUrl && Unended(b) && p.nread + |front| < HTTP_MAX_HEADER_SIZE
    requires var s, r := Walk(StartOf(p.verb), front), Feed(p, front, skip);
             if s == Dead then r.status != Running
             else r == Run(p.(nread := p.nread + |front|, state := s), r.events, Running, |front|) && Same(r.events, [Data(Url, front)]) && UrlState(s)
    ensures var s, r := Walk(StartOf(p.verb), front + [b]), Feed(p, front + [b], skip);
            if s == Dead then r.status != Running
            else r == Run(p.(nread := p.nread + |front| + 1, state := s), r.events, Running, |front| + 1) && Same(r.events, [Data(Url, front + [b])]) && UrlState(s)
  {
    hide Feed, OneByte, Same, Merge, Walk, ParseUrlChar, StartOf, UrlState;
    WalkMore(StartOf(p.verb), front, b);
    assert (front + [b])[..|front|] == front;
    FeedLast(p, front + [b], skip);
    var r := Feed(p, front, skip);
    if r.status == Running {
      NotBefore(r.p.state);
      UrlNext(r.p, b, skip);
      TokenMore(r.events, Url, front, b);
    } else {
      StaysDead(b);
    }
  }

  lemma NotBefore(s: State)
    requires UrlState(s)
    ensures s != ReqSpacesBeforeUrl
  {
  }

  lemma UrlEnd(p: Parser, skip: Answer)
    requires UrlState(p.state) && p.nread < HTTP_MAX_HEADER_SIZE
    ensures var r := OneByte(p, SPACE, skip);
            if MayEnd(p.state) then r == Run(p.(nread := p.nread + 1, state := ReqHttpStart), [Data(Url, [])], Running, 1)
            else r.status != Running
  {
    hide UrlSwitch, Execute, OneByte, Switch;
    var q := Counted(p);
    SwitchEarly(q, SPACE, skip);
    UrlEndSwitched(q);
    if MayEnd(p.state) {
      OutOfToken(p, SPACE, skip, q.(state := ReqHttpStart), Url);
    } else {
      ExecutedToFailure(q, SPACE, skip);
      FailedByte(p, SPACE, skip);
    }
  }

  lemma UrlEndSwitched(p: Parser)
    requires UrlState(p.state)
    ensures if MayEnd(p.state) then UrlSwitch(p, SPACE) == Out(p.(state := ReqHttpStart), [CloseMark(Url)], Done)
            else UrlSwitch(p, SPACE).next.Fail?
  {
    hide UrlByte;
  }

  /** A URL and the space behind it: accepted if and only if it has one of the forms for its
      method, and then reported exactly. */
  lemma UrlAcceptedIff(p: Parser, url: seq<Byte>, skip: Answer)
    requires p.state == ReqSpacesBeforeUrl && UrlText(url) && p.nread + |url| < HTTP_MAX_HEADER_SIZE
    ensures var r := Feed(p, url + [SPACE], skip);
            && (r.status == Running <==> UrlOfRequest(p.verb, url))
            && (r.status == Running ==>
                  r == Run(p.(nread := p.nread + |url| + 1, state := ReqHttpStart), r.events, Running, |url| + 1)
                  && Same(r.events, [Data(Url, url)]))
  {
    hide Feed, OneByte, Same, Merge, Walk, StartOf, UrlOfRequest;
    assert url[..|url|] == url && (url + [SPACE])[..|url|] == url;
    UrlRun(p, url, |url|, skip);
    WalkIff(p.verb, url);
    FeedLast(p, url + [SPACE], skip);
    var r := Feed(p, url, skip);
    if r.status == Running {
      UrlEnd(r.p, skip);
      TokenAgain(r.events, Url, url);
    }
  }
}
