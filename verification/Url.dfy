/** The URL splitter, against the regular expression of RFC 3986, appendix B. */
module Url {
  import opened Common

  /** The five components of a URL reference. */
  datatype Parts = Parts(scheme: Option<string>, authority: Option<string>, path: string, query: Option<string>, fragment: Option<string>)

  // ---------- What the expression says ----------

  /** Section 5.3 of the RFC. */
  function Recompose(p: Parts): string {
    SchemePart(p.scheme) + (AuthorityPart(p.authority) + (p.path + (QueryPart(p.query) + FragmentPart(p.fragment))))
  }

  function SchemePart(scheme: Option<string>): string { if scheme.Some? then scheme.value + ":" else "" }

  function AuthorityPart(authority: Option<string>): string { if authority.Some? then "//" + authority.value else "" }

  function QueryPart(query: Option<string>): string { if query.Some? then "?" + query.value else "" }

  function FragmentPart(fragment: Option<string>): string { if fragment.Some? then "#" + fragment.value else "" }

  /** The components that end at certain characters. */
  datatype Kind = SchemeKind | AuthorityKind | PathKind | QueryKind

  predicate Stops(kind: Kind, ch: char) {
    match kind
    case SchemeKind => ch == ':' || ch == '/' || ch == '?' || ch == '#'
    case AuthorityKind => ch == '/' || ch == '?' || ch == '#'
    case PathKind => ch == '?' || ch == '#'
    case QueryKind => ch == '#'
  }

  predicate Free(s: string, kind: Kind) {
    forall i :: 0 <= i < |s| ==> !Stops(kind, s[i])
  }

  predicate Begins(s: string, ch: char) {
    s != "" && s[0] == ch
  }

  predicate TwoSlashes(s: string) {
    |s| >= 2 && s[0] == '/' && s[1] == '/'
  }

  /** Nothing, or something that the component ends at. */
  predicate Ended(s: string, kind: Kind) {
    s == "" || Stops(kind, s[0])
  }

  /** Each component has only the characters of its group, and a group that could take
      part, or take more, does.  The expression wants a non-empty scheme; with emptyScheme
      an empty one will do. */
  ghost predicate Matches(url: string, p: Parts, emptyScheme: bool) {
    && url == Recompose(p)
    && (p.scheme.Some? ==> Free(p.scheme.value, SchemeKind) && (emptyScheme || p.scheme.value != ""))
    && (p.scheme.None? ==> forall k :: 0 <= k < |url| && url[k] == ':' && (emptyScheme || k > 0) ==> !Free(url[..k], SchemeKind))
    && (p.authority.Some? ==> Free(p.authority.value, AuthorityKind) && (p.path == "" || Begins(p.path, '/')))
    && (p.authority.None? ==> !TwoSlashes(p.path))
    && Free(p.path, PathKind)
    && (p.query.Some? ==> Free(p.query.value, QueryKind))
  }

  // ---------- Reading the components off ----------

  /** How many characters come before the first stop. */
  function Span(s: string, kind: Kind): (n: nat)
    ensures n <= |s| && Free(s[..n], kind) && (n < |s| ==> Stops(kind, s[n]))
  {
    if Ended(s, kind) then 0
    else
      var n := 1 + Span(s[1..], kind);
      assert forall i :: 1 <= i < n ==> s[i] == s[1..][..n - 1][i - 1];
      n
  }

  lemma {:induction false} SpanIs(x: string, y: string, kind: Kind)
    requires Free(x, kind) && Ended(y, kind)
    ensures Span(x + y, kind) == |x|
  {
    if x == "" {
      assert x + y == y;
    } else {
      assert (x + y)[1..] == x[1..] + y;
      SpanIs(x[1..], y, kind);
    }
  }

  function SchemeOf(url: string, emptyScheme: bool): Option<string> {
    var k := Span(url, SchemeKind);
    if k < |url| && url[k] == ':' && (emptyScheme || k > 0) then Some(url[..k]) else None
  }

  function AuthorityOf(s: string): Option<string> {
    if TwoSlashes(s) then Some(s[2..][..Span(s[2..], AuthorityKind)]) else None
  }

  function QueryOf(s: string): Option<string> {
    if Begins(s, '?') then Some(s[1..][..Span(s[1..], QueryKind)]) else None
  }

  function FragmentOf(s: string): Option<string> {
    if Begins(s, '#') then Some(s[1..]) else None
  }

  /** What comes behind c in s. */
  function After(s: string, c: string): string {
    if |c| <= |s| then s[|c|..] else ""
  }

  function Read(url: string, emptyScheme: bool): Parts {
    var scheme := SchemeOf(url, emptyScheme);
    var r1 := After(url, SchemePart(scheme));
    var authority := AuthorityOf(r1);
    var r2 := After(r1, AuthorityPart(authority));
    var path := r2[..Span(r2, PathKind)];
    var r3 := After(r2, path);
    var query := QueryOf(r3);
    var r4 := After(r3, QueryPart(query));
    Parts(scheme, authority, path, query, FragmentOf(r4))
  }

  // ---------- There is exactly one way to match ----------

  lemma SchemeSplits(url: string, emptyScheme: bool)
    ensures var scheme := SchemeOf(url, emptyScheme);
            && url == SchemePart(scheme) + After(url, SchemePart(scheme))
            && (scheme.Some? ==> Free(scheme.value, SchemeKind) && (emptyScheme || scheme.value != ""))
            && (scheme.None? ==> forall k :: 0 <= k < |url| && url[k] == ':' && (emptyScheme || k > 0) ==> !Free(url[..k], SchemeKind))
  {
    var n := Span(url, SchemeKind);
    forall k | 0 <= k < |url| && url[k] == ':' && Free(url[..k], SchemeKind)
      ensures k == n
    {
      assert url == url[..k] + url[k..];
      SpanIs(url[..k], url[k..], SchemeKind);
    }
  }

  lemma AuthoritySplits(s: string)
    ensures var authority := AuthorityOf(s); var r := After(s, AuthorityPart(authority));
            && s == AuthorityPart(authority) + r
            && (authority.Some? ==> Free(authority.value, AuthorityKind) && (Ended(r, AuthorityKind)))
            && (authority.None? ==> !(TwoSlashes(s)))
  {
    if TwoSlashes(s) {
      var n := Span(s[2..], AuthorityKind);
      assert s == "//" + s[2..][..n] + s[2..][n..];
    }
  }

  lemma QuerySplits(s: string)
    requires Ended(s, PathKind)
    ensures var query := QueryOf(s); var r := After(s, QueryPart(query));
            && s == QueryPart(query) + r
            && (query.Some? ==> Free(query.value, QueryKind))
            && r == FragmentPart(FragmentOf(r))
  {
    if Begins(s, '?') {
      var n := Span(s[1..], QueryKind);
      assert s == "?" + s[1..][..n] + s[1..][n..];
      var r := s[1..][n..];
      assert r == "" || r == "#" + r[1..];
    } else {
      assert s == "" || s == "#" + s[1..];
    }
  }

  lemma PathSplits(s: string)
    ensures var path := s[..Span(s, PathKind)]; var r := After(s, path);
            && s == path + r && Free(path, PathKind) && Ended(r, PathKind)
            && (Ended(s, AuthorityKind) ==> path == "" || Begins(path, '/'))
            && (!TwoSlashes(s) ==> !TwoSlashes(path))
  {
    var n := Span(s, PathKind);
    FrontKeeps(s, n);
    assert Free(s[..n], PathKind) && (n < |s| ==> Stops(PathKind, s[n]));
    hide Span, Free;
    assert s[n..] == "" || s[n..][0] == s[n];
    BehindFront(s, n);
  }

  lemma BehindFront(s: string, n: nat)
    requires n <= |s|
    ensures s == s[..n] + s[|s[..n]|..]
  {
  }

  lemma FrontKeeps(s: string, n: nat)
    requires n <= |s| && Free(s[..n], PathKind)
    ensures Ended(s, AuthorityKind) ==> s[..n] == "" || Begins(s[..n], '/')
    ensures !TwoSlashes(s) ==> !TwoSlashes(s[..n])
  {
    if n > 0 {
      assert s[..n][0] == s[0];
    }
  }

  lemma WithoutAuthority(s: string, r: string)
    requires s == AuthorityPart(None) + r
    ensures s == r
  {
  }

  lemma Assembled(url: string, p: Parts, emptyScheme: bool, r1: string, r2: string, r3: string, r4: string)
    requires url == SchemePart(p.scheme) + r1 && r1 == AuthorityPart(p.authority) + r2 && r2 == p.path + r3
    requires r3 == QueryPart(p.query) + r4 && r4 == FragmentPart(p.fragment)
    ensures url == Recompose(p)
  {
    hide SchemePart, AuthorityPart, QueryPart, FragmentPart;
  }

  /** Reading gives a match. */
  lemma ReadMatches(url: string, emptyScheme: bool)
    ensures Matches(url, Read(url, emptyScheme), emptyScheme)
  {
    hide After, SchemeOf, AuthorityOf, QueryOf, FragmentOf, SchemePart, AuthorityPart, QueryPart, FragmentPart, Free, Ended, Begins, TwoSlashes,
      Recompose, Span;
    var p := Read(url, emptyScheme);
    SchemeSplits(url, emptyScheme);
    var r1 := After(url, SchemePart(p.scheme));
    AuthoritySplits(r1);
    var r2 := After(r1, AuthorityPart(p.authority));
    PathSplits(r2);
    var r3 := After(r2, p.path);
    QuerySplits(r3);
    Assembled(url, p, emptyScheme, r1, r2, r3, After(r3, QueryPart(p.query)));
    if p.authority.None? {
      WithoutAuthority(r1, r2);
    }
  }

  lemma Regroup(a: string, b: string, c: string)
    ensures (a + b) + c == a + (b + c)
  {
  }

  lemma SchemePresent(url: string, s: string, rest: string, emptyScheme: bool)
    requires url == (s + ":") + rest && Free(s, SchemeKind) && (emptyScheme || s != "")
    ensures SchemeOf(url, emptyScheme) == Some(s)
  {
    var tail := ":" + rest;
    Regroup(s, ":", rest);
    hide Free;
    SpanIs(s, tail, SchemeKind);
    assert url[..|s|] == s;
  }

  lemma SchemeMissing(url: string, emptyScheme: bool)
    requires forall k :: 0 <= k < |url| && url[k] == ':' && (emptyScheme || k > 0) ==> !Free(url[..k], SchemeKind)
    ensures SchemeOf(url, emptyScheme) == None
  {
    hide Free;
  }

  lemma SchemeIsRead(url: string, p: Parts, emptyScheme: bool)
    requires Matches(url, p, emptyScheme)
    ensures SchemeOf(url, emptyScheme) == p.scheme
  {
    hide AuthorityPart, QueryPart, FragmentPart, SchemeOf, Free;
    if p.scheme.Some? {
      SchemePresent(url, p.scheme.value, AuthorityPart(p.authority) + (p.path + (QueryPart(p.query) + FragmentPart(p.fragment))), emptyScheme);
    } else {
      SchemeMissing(url, emptyScheme);
    }
  }

  lemma AuthorityIsRead(s: string, authority: Option<string>, path: string, tail: string)
    requires s == AuthorityPart(authority) + (path + tail) && (Ended(tail, PathKind))
    requires authority.Some? ==> Free(authority.value, AuthorityKind) && (path == "" || Begins(path, '/'))
    requires authority.None? ==> !TwoSlashes(path)
    ensures AuthorityOf(s) == authority
  {
    if authority.Some? {
      var a, rest := authority.value, path + tail;
      assert s[2..] == a + rest;
      SpanIs(a, rest, AuthorityKind);
      assert s[2..][..|a|] == a;
    } else if TwoSlashes(s) {
      assert s == path + tail && s[0] == '/' && s[1] == '/';
      NoSlashes(path, tail);
    }
  }

  lemma NoSlashes(path: string, tail: string)
    ensures TwoSlashes(path + tail) && !TwoSlashes(path) ==> Begins(tail, '/')
  {
    var s := path + tail;
    if TwoSlashes(s) && |path| < 2 {
      assert s[|path|] == '/' && After(s, path) == tail;
    } else if TwoSlashes(s) {
      assert path[0] == s[0] && path[1] == s[1];
    }
  }

  lemma FragmentIsRead(fragment: Option<string>)
    ensures FragmentOf(FragmentPart(fragment)) == fragment
    ensures var s := FragmentPart(fragment); Ended(s, QueryKind)
  {
    if fragment.Some? {
      assert FragmentPart(fragment)[1..] == fragment.value;
    }
  }

  lemma QueryIsRead(s: string, query: Option<string>, rest: string)
    requires s == QueryPart(query) + rest && (query.Some? ==> Free(query.value, QueryKind)) && Ended(rest, QueryKind)
    ensures QueryOf(s) == query && (Ended(s, PathKind))
  {
    if query.Some? {
      var q := query.value;
      assert s[1..] == q + rest;
      hide Free;
      SpanIs(q, rest, QueryKind);
      assert s[1..][..|q|] == q;
    } else {
      assert s == rest;
    }
  }

  /** And every match is what is read. */
  lemma MatchIsRead(url: string, p: Parts, emptyScheme: bool)
    requires Matches(url, p, emptyScheme)
    ensures p == Read(url, emptyScheme)
  {
    SchemeIsRead(url, p, emptyScheme);
    hide SchemeOf, AuthorityOf, QueryOf, FragmentOf, SchemePart, AuthorityPart, QueryPart, FragmentPart;
    var r4 := FragmentPart(p.fragment);
    var r3 := QueryPart(p.query) + r4;
    var r2 := p.path + r3;
    var r1 := AuthorityPart(p.authority) + r2;
    FragmentIsRead(p.fragment);
    QueryIsRead(r3, p.query, r4);
    AuthorityIsRead(r1, p.authority, p.path, r3);
    SpanIs(p.path, r3, PathKind);
    assert url == SchemePart(p.scheme) + r1;
    assert After(url, SchemePart(p.scheme)) == r1;
    assert After(r1, AuthorityPart(p.authority)) == r2;
    assert r2[..|p.path|] == p.path && After(r2, p.path) == r3;
    assert After(r3, QueryPart(p.query)) == r4;
  }

  /** The splitter's reading is the expression's, exactly unless the URL starts with a
      colon: then the splitter takes an empty scheme and the expression takes none. */
  lemma AgreesUnlessColon(url: string)
    ensures Read(url, true) == Read(url, false) <==> !(Begins(url, ':'))
    ensures Begins(url, ':') ==> Read(url, true).scheme == Some("") && Read(url, false).scheme == None
  {
    var n := Span(url, SchemeKind);
    assert Begins(url, ':') <==> n == 0 && n < |url| && url[n] == ':';
  }

  // ---------- The splitter ----------

  datatype Group = Group(start: nat, end: nat)

  datatype Field = All | SchemeField | AuthorityField | PathField | QueryField | FragmentField

  /** Where the components are. */
  datatype Places = Places(scheme: Group, authority: Group, path: Group, query: Group, fragment: Group)

  ghost function PlacesOf(p: Parts): Places {
    var o1 := |SchemePart(p.scheme)|;
    var o2 := o1 + |AuthorityPart(p.authority)|;
    var o3 := o2 + |p.path|;
    var o4 := o3 + |QueryPart(p.query)|;
    var o5 := o4 + |FragmentPart(p.fragment)|;
    Places(Group(0, if o1 > 0 then o1 - 1 else 0),
           Group(if p.authority.Some? then o1 + 2 else o1, o2),
           Group(o2, o3),
           Group(if p.query.Some? then o3 + 1 else o3, o4),
           Group(if p.fragment.Some? then o4 + 1 else o4, o5))
  }

  /** The endpoints cut the components out of the URL. */
  ghost predicate CutsOut(url: string, g: Group, c: Option<string>) {
    g.start <= g.end <= |url| && url[g.start..g.end] == if c.Some? then c.value else ""
  }

  lemma CutAt(url: string, before: string, c: string, after: string)
    requires url == before + (c + after)
    ensures |before| + |c| <= |url| && url[|before|..|before| + |c|] == c
  {
  }

  /** A component behind its delimiter, or missing together with it. */
  lemma PartCut(url: string, before: string, delimiter: string, c: Option<string>, part: string, after: string)
    requires url == before + (part + after) && part == if c.Some? then delimiter + c.value else ""
    ensures var o := |before|; CutsOut(url, Group(if c.Some? then o + |delimiter| else o, o + |part|), c)
  {
    if c.Some? {
      assert url == (before + delimiter) + (c.value + after);
      CutAt(url, before + delimiter, c.value, after);
    }
  }

  lemma SchemeCut(url: string, scheme: Option<string>, after: string)
    requires url == SchemePart(scheme) + after
    ensures var o := |SchemePart(scheme)|; CutsOut(url, Group(0, if o > 0 then o - 1 else 0), scheme)
  {
    if scheme.Some? {
      CutAt(url, "", scheme.value, ":" + after);
    }
  }

  lemma PartsAre(p: Parts)
    ensures AuthorityPart(p.authority) == if p.authority.Some? then "//" + p.authority.value else ""
    ensures QueryPart(p.query) == if p.query.Some? then "?" + p.query.value else ""
    ensures FragmentPart(p.fragment) == if p.fragment.Some? then "#" + p.fragment.value else ""
  {
  }

  lemma PlacesCutOut(url: string, p: Parts)
    requires url == Recompose(p)
    ensures var g := PlacesOf(p);
            && CutsOut(url, g.scheme, p.scheme) && CutsOut(url, g.authority, p.authority) && CutsOut(url, g.path, Some(p.path))
            && CutsOut(url, g.query, p.query) && CutsOut(url, g.fragment, p.fragment) && g.fragment.end == |url|
  {
    hide SchemePart, AuthorityPart, QueryPart, FragmentPart, CutsOut;
    var o1, o2 := SchemePart(p.scheme), AuthorityPart(p.authority);
    var o4, o5 := QueryPart(p.query), FragmentPart(p.fragment);
    PartsAre(p);
    SchemeCut(url, p.scheme, o2 + (p.path + (o4 + o5)));
    PartCut(url, o1, "//", p.authority, o2, p.path + (o4 + o5));
    Regroup(o1, o2, p.path + (o4 + o5));
    PathCut(url, o1 + o2, p.path, o4 + o5);
    Regroup(o1 + o2, p.path, o4 + o5);
    PartCut(url, o1 + o2 + p.path, "?", p.query, o4, o5);
    Regroup(o1 + o2 + p.path, o4, o5);
    assert o5 + "" == o5;
    PartCut(url, o1 + o2 + p.path + o4, "#", p.fragment, o5, "");
  }

  lemma PathCut(url: string, before: string, path: string, after: string)
    requires url == before + (path + after)
    ensures CutsOut(url, Group(|before|, |before| + |path|), Some(path))
  {
    CutAt(url, before, path, after);
  }

  class Storage {
    var scheme: Group
    var authority: Group
    var path: Group
    var query: Group
    var fragment: Group

    constructor () {
      scheme, authority, path, query, fragment := Group(0, 0), Group(0, 0), Group(0, 0), Group(0, 0), Group(0, 0);
    }
  }

  /** The scanning loops. */
  method Skip(url: string, c: nat, kind: Kind) returns (end: nat)
    requires c <= |url|
    ensures end == c + Span(url[c..], kind) <= |url|
  {
    end := c;
    while end < |url| && !Stops(kind, url[end])
      invariant c <= end <= |url| && Free(url[c..end], kind)
    {
      assert url[c..end + 1] == url[c..end] + [url[end]];
      end := end + 1;
    }
    assert url[c..] == url[c..end] + url[end..];
    SpanIs(url[c..end], url[end..], kind);
  }

  /** Groups 1 and 2 of the expression. */
  method SplitScheme(url: string) returns (g: Group, c: nat)
    ensures var o := |SchemePart(SchemeOf(url, true))|; c == o <= |url| && g == Group(0, if o > 0 then o - 1 else 0)
  {
    c := Skip(url, 0, SchemeKind);
    assert url[0..] == url;
    g := Group(0, c);
    if c < |url| && url[c] == ':' {
      c := c + 1;
    } else {
      g := Group(0, 0);
      c := 0;
    }
  }

  /** Groups 3 and 4. */
  method SplitAuthority(url: string, c0: nat) returns (g: Group, c: nat)
    requires c0 <= |url|
    ensures var a := AuthorityOf(url[c0..]); c == c0 + |AuthorityPart(a)| <= |url| && g == Group(if a.Some? then c0 + 2 else c0, c)
  {
    c := c0;
    g := Group(c0, c0);
    if c + 1 < |url| && url[c] == '/' && url[c + 1] == '/' {
      c := Skip(url, c + 2, AuthorityKind);
      assert url[c0..][2..] == url[c0 + 2..];
      g := Group(c0 + 2, c);
    }
  }

  /** Groups 6 and 7, with the path before them done. */
  method SplitQuery(url: string, c0: nat) returns (g: Group, c: nat)
    requires c0 <= |url|
    ensures var q := QueryOf(url[c0..]); c == c0 + |QueryPart(q)| <= |url| && g == Group(if q.Some? then c0 + 1 else c0, c)
  {
    c := c0;
    g := Group(c0, c0);
    if c < |url| && url[c] == '?' {
      c := Skip(url, c + 1, QueryKind);
      assert url[c0..][1..] == url[c0 + 1..];
      g := Group(c0 + 1, c);
    }
  }

  /** Groups 8 and 9. */
  method SplitFragment(url: string, c0: nat) returns (g: Group)
    requires c0 <= |url|
    ensures var f := FragmentOf(url[c0..]); g == Group(if f.Some? then c0 + 1 else c0, c0 + |FragmentPart(f)|)
  {
    g := Group(c0, c0);
    if c0 < |url| && url[c0] == '#' {
      var c := c0 + 1;
      while c < |url|
        invariant c <= |url|
      {
        c := c + 1;
      }
      g := Group(c0 + 1, c);
    }
  }

  /** How many components are stored when the caller wants no more than one field. */
  function Reached(field: Field): nat {
    match field
    case SchemeField => 1
    case AuthorityField => 2
    case PathField => 3
    case QueryField => 4
    case _ => 5
  }

  /** Where the scan stands after the scheme, the authority, the path and the query. */
  ghost function Stage(url: string, n: nat): (o: nat)
    requires n <= 4
    ensures o <= |url|
  {
    if n == 0 then 0
    else
      var o := Stage(url, n - 1);
      var s := url[o..];
      if n == 1 then |SchemePart(SchemeOf(url, true))|
      else if n == 2 then o + |AuthorityPart(AuthorityOf(s))|
      else if n == 3 then o + Span(s, PathKind)
      else o + |QueryPart(QueryOf(s))|
  }

  ghost predicate PlacedAt(url: string, g: Places) {
    var o1, o2, o3, o4 := Stage(url, 1), Stage(url, 2), Stage(url, 3), Stage(url, 4);
    && g.scheme == Group(0, if o1 > 0 then o1 - 1 else 0)
    && g.authority == Group(if AuthorityOf(url[o1..]).Some? then o1 + 2 else o1, o2)
    && g.path == Group(o2, o3)
    && g.query == Group(if QueryOf(url[o3..]).Some? then o3 + 1 else o3, o4)
    && g.fragment == Group(if FragmentOf(url[o4..]).Some? then o4 + 1 else o4, o4 + |FragmentPart(FragmentOf(url[o4..]))|)
  }

  lemma StageSteps(url: string)
    ensures var o1, o2, o3 := Stage(url, 1), Stage(url, 2), Stage(url, 3);
            && o1 == |SchemePart(SchemeOf(url, true))| && o2 == o1 + |AuthorityPart(AuthorityOf(url[o1..]))|
            && o3 == o2 + Span(url[o2..], PathKind) && Stage(url, 4) == o3 + |QueryPart(QueryOf(url[o3..]))|
  {
    hide SchemeOf, AuthorityOf, QueryOf, FragmentOf, SchemePart, AuthorityPart, QueryPart, FragmentPart, Free, Span;
  }

  lemma AfterAt(s: string, o: nat, c: string)
    requires o + |c| <= |s|
    ensures After(s[o..], c) == s[o + |c|..]
  {
  }

  lemma ReadParts(url: string)
    ensures var p, o1, o3, o4 := Read(url, true), Stage(url, 1), Stage(url, 3), Stage(url, 4);
            && p.scheme == SchemeOf(url, true) && p.authority == AuthorityOf(url[o1..])
            && Stage(url, 2) + |p.path| == o3 && p.query == QueryOf(url[o3..]) && p.fragment == FragmentOf(url[o4..])
  {
    hide SchemeOf, AuthorityOf, QueryOf, FragmentOf, SchemePart, AuthorityPart, QueryPart, FragmentPart, Free, Span, After, Stage;
    var o1, o2, o3 := Stage(url, 1), Stage(url, 2), Stage(url, 3);
    StageSteps(url);
    var scheme := SchemeOf(url, true);
    assert url[0..] == url;
    AfterAt(url, 0, SchemePart(scheme));
    var s1 := url[o1..];
    AfterAt(url, o1, AuthorityPart(AuthorityOf(s1)));
    var s2 := url[o2..];
    AfterAt(url, o2, s2[..Span(s2, PathKind)]);
    AfterAt(url, o3, QueryPart(QueryOf(url[o3..])));
  }

  lemma ReadByStages(url: string)
    ensures PlacedAt(url, PlacesOf(Read(url, true)))
  {
    hide SchemeOf, AuthorityOf, QueryOf, FragmentOf, SchemePart, AuthorityPart, QueryPart, FragmentPart, Free, Span, Read, Stage;
    ReadParts(url);
    StageSteps(url);
  }

  /** The fields behind the first n have the endpoints 0 and 0. */
  ghost predicate LaterClear(storage: Storage, n: nat)
    reads storage
  {
    var clear := Group(0, 0);
    && (n < 2 ==> storage.authority == clear) && (n < 3 ==> storage.path == clear)
    && (n < 4 ==> storage.query == clear) && (n < 5 ==> storage.fragment == clear)
  }

  /** parseURLField: the places of the components, as far as the field asked for; what the
      storage held for later ones stays, so they are clear afterwards if and only if they
      were before. */
  method ParseUrlField(url: string, storage: Storage, field: Field) returns (code: int)
    modifies storage
    ensures code == 1 <==> url == ""
    ensures code == 0 <==> url != ""
    ensures var g, n := PlacesOf(Read(url, true)), if code == 0 then Reached(field) else 0;
            && storage.scheme == (if n >= 1 then g.scheme else old(storage.scheme))
            && storage.authority == (if n >= 2 then g.authority else old(storage.authority))
            && storage.path == (if n >= 3 then g.path else old(storage.path))
            && storage.query == (if n >= 4 then g.query else old(storage.query))
            && storage.fragment == (if n >= 5 then g.fragment else old(storage.fragment))
    ensures code == 0 ==> (LaterClear(storage, Reached(field)) <==> old(LaterClear(storage, Reached(field))))
  {
    hide SchemeOf, AuthorityOf, QueryOf, FragmentOf, SchemePart, AuthorityPart, QueryPart, FragmentPart, Free, Span, Read, PlacesOf, Stage;
    if url == "" {
      return 1;
    }
    ReadByStages(url);
    StageSteps(url);
    var o1, o2, o3, o4;
    storage.scheme, o1 := SplitScheme(url);
    code := 0;
    if field != SchemeField {
      storage.authority, o2 := SplitAuthority(url, o1);
      if field != AuthorityField {
        o3 := Skip(url, o2, PathKind);
        storage.path := Group(o2, o3);
        if field != PathField {
          storage.query, o4 := SplitQuery(url, o3);
          if field != QueryField {
            storage.fragment := SplitFragment(url, o4);
          }
        }
      }
    }
  }

  /** All five components at once. */
  lemma KnownUrl()
    ensures Read("http://a/b?c#d", false) == Parts(Some("http"), Some("a"), "/b", Some("c"), Some("d"))
    ensures Read("http://a/b?c#d", true) == Parts(Some("http"), Some("a"), "/b", Some("c"), Some("d"))
  {
    var p := Parts(Some("http"), Some("a"), "/b", Some("c"), Some("d"));
    assert Recompose(p) == "http://a/b?c#d";
    hide Read, Recompose;
    MatchIsRead("http://a/b?c#d", p, false);
    MatchIsRead("http://a/b?c#d", p, true);
  }
}
