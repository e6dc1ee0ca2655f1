/** The scanner that runs the keyword automaton directly over compressed tokens: it decodes
    into a window while scanning, and inside copies skips stretches that the status of the
    copied bytes lets it skip. */
module Acch {
  import opened Common
  import opened AcSpec
  import opened AcMachine
  import opened AcsmObject
  import opened Publish
  import opened Window

  const C_DEPTH := 4

  /** What scanning a byte says: a match, a deep state, or a shallow one. */
  const MATCHED := 0
  const DEEP := 1
  const SHALLOW := 2

  /** A compiled automaton with the depths of its states. */
  datatype Automaton = Automaton(table: Table, depth: seq<nat>)

  ghost predicate AutomatonOk(a: Automaton, list: seq<Pattern>, words: Words) {
    Compiled(list, words, a.table) && |a.depth| == |a.table| && forall s :: 0 <= s < |words| ==> a.depth[s] == |words[s]|
  }

  /** The state is what reading the window from position s on leads to. */
  ghost predicate ReadFrom(a: Automaton, words: Words, text: seq<Byte>, s: nat, state: int) {
    s <= |text| && state == RunTo(a.table, text[s..]) && 0 <= state < |words|
  }

  /** Some listed pattern occurs. */
  ghost predicate SomeOccurs(list: seq<Pattern>, text: seq<Byte>) {
    exists p :: p in list && Occurs(p, text)
  }

  lemma {:induction false} OccursLater(p: Pattern, text: seq<Byte>, a: nat, b: nat, whole: seq<Byte>)
    requires a <= b <= |whole| && text == whole[a..b] && Occurs(p, text)
    ensures Occurs(p, whole)
  {
    var i :| OccursAt(p, text, i);
    var x, y := whole[a + i..a + i + |p|], text[i..i + |p|];
    assert |x| == |y| && forall k :: 0 <= k < |x| ==> x[k] == y[k];
    assert OccursAt(p, whole, a + i);
  }

  lemma SomeOccursLater(list: seq<Pattern>, text: seq<Byte>, whole: seq<Byte>)
    requires SomeOccurs(list, text) && text <= whole
    ensures SomeOccurs(list, whole)
  {
    var p :| p in list && Occurs(p, text);
    assert text == whole[0..|text|];
    OccursLater(p, text, 0, |text|, whole);
  }

  /** Reading one more byte. */
  lemma {:induction false} ReadNext(a: Automaton, list: seq<Pattern>, words: Words, text: seq<Byte>, s: nat, state: int, c: Byte)
    requires AutomatonOk(a, list, words) && ReadFrom(a, words, text, s, state)
    ensures state < |a.table| && |a.table[state].next| == ALPHABET_SIZE
    ensures var state' := a.table[state].next[c];
            ReadFrom(a, words, text + [c], s, state') && state' < |a.table|
            && (a.table[state'].matches != [] ==> SomeOccurs(list, text + [c]))
  {
    hide InTrie, Numbering, DoneEdge, LongestSuffix, Matches, IsSuffix, RunTo, Compiled;
    var more := text + [c];
    var read := more[s..];
    assert read == text[s..] + [c];
    RunOn(list, words, a.table, text[s..], c);
    var state' := a.table[state].next[c];
    if a.table[state'].matches != [] {
      MatchedOccurs(list, words, a.table, read, state');
      var p :| p in list && Occurs(p, read);
      OccursLater(p, read, s, |more|, more);
    }
  }

  /** One step of a run. */
  lemma {:induction false} RunOn(list: seq<Pattern>, words: Words, t: Table, text: seq<Byte>, c: Byte)
    requires Compiled(list, words, t)
    ensures var state, state' := RunTo(t, text), RunTo(t, text + [c]);
            && 0 <= state < |words| <= |t| && |t[state].next| == ALPHABET_SIZE && 0 <= state' < |words|
            && state' == t[state].next[c]
  {
    hide InTrie, Numbering, DoneEdge, LongestSuffix, Matches;
    assert (text + [c])[..|text|] == text;
    RunIsLongestSuffix(list, words, t, text);
    RunIsLongestSuffix(list, words, t, text + [c]);
  }

  /** A match list that is not empty: some pattern occurs in what was read. */
  lemma {:induction false} MatchedOccurs(list: seq<Pattern>, words: Words, t: Table, read: seq<Byte>, state: nat)
    requires Compiled(list, words, t) && read != [] && RunTo(t, read) == state < |t| && t[state].matches != []
    ensures SomeOccurs(list, read)
  {
    hide Compiled, RunTo, IsSuffix, InTrie;
    var p := t[state].matches[0];
    ReportAtEnd(list, words, t, read, p);
    assert p in multiset(MatchesAt(t, state));
    MatchOccurs(list, read, p);
  }

  /** A non-empty listed pattern ends here. */
  ghost predicate SomeEnds(list: seq<Pattern>, text: seq<Byte>) {
    exists p :: p in list && p != [] && IsSuffix(p, text)
  }

  /** Without a match, and with everything read, no pattern ends here. */
  lemma {:induction false} NoMatchNoEnd(a: Automaton, list: seq<Pattern>, words: Words, text: seq<Byte>, state: int)
    requires AutomatonOk(a, list, words) && ReadFrom(a, words, text, 0, state) && text != []
    requires state < |a.table| && a.table[state].matches == []
    ensures !SomeEnds(list, text)
  {
    hide InTrie, Numbering, DoneEdge, LongestSuffix, Matches, IsSuffix, RunTo;
    assert text[0..] == text && text[..|text|] == text;
    forall p | p in list && p != []
      ensures !IsSuffix(p, text)
    {
      ReportAtEnd(list, words, a.table, text, p);
      assert multiset(list)[p] > 0;
    }
  }

  /** A pattern occurs in a longer text if it did before, or ends with the new byte. */
  lemma {:induction false} OccursOrEnds(list: seq<Pattern>, text: seq<Byte>, c: Byte)
    requires [] !in list && SomeOccurs(list, text + [c])
    ensures SomeOccurs(list, text) || SomeEnds(list, text + [c])
  {
    var more := text + [c];
    var p :| p in list && Occurs(p, more);
    var i :| OccursAt(p, more, i);
    if i + |p| == |more| {
      assert more[|more| - |p|..] == p;
      assert IsSuffix(p, more);
    } else {
      assert text[i..i + |p|] == more[i..i + |p|];
      assert OccursAt(p, text, i);
    }
  }

  lemma NothingOccurs(list: seq<Pattern>)
    requires [] !in list
    ensures !SomeOccurs(list, [])
  {
    forall p | p in list
      ensures !Occurs(p, [])
    {
    }
  }

  lemma MatchOccurs(list: seq<Pattern>, text: seq<Byte>, p: Pattern)
    requires Owed(list, text, p, |text|) > 0
    ensures Occurs(p, text) && p in list
  {
    assert text[..|text|] == text;
    if p == [] {
      assert OccursAt(p, text, 0);
    } else {
      assert IsSuffix(p, text);
      assert OccursAt(p, text, |text| - |p|);
    }
  }

  lemma Restart(a: Automaton, list: seq<Pattern>, words: Words, text: seq<Byte>)
    requires AutomatonOk(a, list, words)
    ensures ReadFrom(a, words, text, |text|, 0)
  {
    assert text[|text|..] == [];
  }

  /** Compiling a list gives an automaton to scan with. */
  method CompileAutomaton(acsm: Acsm) returns (a: Automaton)
    modifies acsm
    ensures acsm.patterns == old(acsm.patterns)
    ensures a == Automaton(acsm.table, acsm.dept) && AutomatonOk(a, acsm.patterns, acsm.words)
  {
    hide Compiled;
    acsm.Compile();
    a := Automaton(acsm.table, acsm.dept);
  }

  class Scanner {
    const win: array<Byte>
    const st: array<int>
    const a: Automaton

    constructor (a: Automaton)
      ensures this.a == a && Buffers() && fresh(win) && fresh(st)
    {
      this.a := a;
      win, st := new Byte[WSIZE], new int[WSIZE];
    }

    predicate Buffers() { win.Length == WSIZE && st.Length == WSIZE }

    /** The window holds what has been decoded, and the state has read the end of it. */
    ghost predicate Scanning(list: seq<Pattern>, words: Words, w: nat, out: seq<Byte>, s: nat, state: int)
      reads win
    {
      && Buffers() && AutomatonOk(a, list, words)
      && w == |out| < WSIZE && win[..w] == out && ReadFrom(a, words, out, s, state)
    }

    /** scanAC. */
    method ScanAc(state: int, b: Byte, ghost list: seq<Pattern>, ghost words: Words, ghost out: seq<Byte>, ghost s: nat)
      returns (state': int, status: int)
      requires AutomatonOk(a, list, words) && ReadFrom(a, words, out, s, state)
      ensures ReadFrom(a, words, out + [b], s, state')
      ensures status == MATCHED ==> SomeOccurs(list, out + [b])
      ensures status != MATCHED && s == 0 ==> !SomeEnds(list, out + [b])
      ensures status == MATCHED || status == DEEP || status == SHALLOW
    {
      ReadNext(a, list, words, out, s, state, b);
      state' := a.table[state].next[b];
      if a.table[state'].matches != [] {
        status := MATCHED;
      } else {
        if s == 0 { NoMatchNoEnd(a, list, words, out + [b], state'); }
        assert |a.depth| == |a.table|;
        status := if a.depth[state'] >= C_DEPTH then DEEP else SHALLOW;
      }
    }

    /** Copies and scans the byte d back. */
    method ScanCopied(w: nat, d: nat, state: int, ghost list: seq<Pattern>, ghost words: Words, ghost out: seq<Byte>, ghost s: nat)
      returns (w': nat, state': int, status: int)
      requires Scanning(list, words, w, out, s, state) && 1 <= d <= w && w < WSIZE - 1
      modifies win, st
      ensures w' == w + 1 && Scanning(list, words, w', out + [out[w - d]], s, state')
      ensures status == MATCHED ==> SomeOccurs(list, out + [out[w - d]])
    {
      hide AutomatonOk, ReadFrom, SomeOccurs;
      ghost var b := win[w - d];
      assert b == out[w - d];
      state', status := ScanAc(state, win[w - d], list, words, out, s);
      win[w] := win[w - d];
      st[w] := status;
      w' := w + 1;
      assert win[..w'] == out + [b];
    }

    /** Copies and scans up to n bytes; stops behind a match. */
    method ScanRun(w: nat, d: nat, n: nat, state: int, ghost list: seq<Pattern>, ghost words: Words, ghost out: seq<Byte>, ghost s: nat)
      returns (w': nat, state': int, tag: bool, done: nat)
      requires Scanning(list, words, w, out, s, state) && 1 <= d <= w && w + n < WSIZE
      modifies win, st
      ensures done <= n && w' == w + done && Scanning(list, words, w', CopyBack(out, d, done), s, state')
      ensures if tag then SomeOccurs(list, CopyBack(out, d, done)) else done == n
    {
      hide CopyBack, Scanning, SomeOccurs;
      CopyNothing(out, d) by { WindowLength(list, words, w, out, s, state); }
      w', state', tag, done := w, state, false, 0;
      WindowLength(list, words, w, out, s, state);
      while done < n && !tag
        invariant done <= n && w' == w + done && Scanning(list, words, w', CopyBack(out, d, done), s, state')
        invariant if tag then SomeOccurs(list, CopyBack(out, d, done)) else done <= n
      {
        var status;
        CopyBackSnoc(out, d, done + 1);
        w', state', status := ScanCopied(w', d, state', list, words, CopyBack(out, d, done), s);
        done := done + 1;
        tag := status == MATCHED;
      }
    }

    lemma WindowLength(list: seq<Pattern>, words: Words, w: nat, out: seq<Byte>, s: nat, state: int)
      requires Scanning(list, words, w, out, s, state)
      ensures w == |out|
    {
    }

    /** The bytes of a copy that need no scanning; reading starts anew behind them. */
    method Skip(w: nat, d: nat, n: nat, state: int, ghost list: seq<Pattern>, ghost words: Words, ghost out: seq<Byte>, ghost s: nat)
      returns (w': nat)
      requires Scanning(list, words, w, out, s, state) && 1 <= d <= w && w + n < WSIZE
      modifies win
      ensures w' == w + n && Scanning(list, words, w', CopyBack(out, d, n), w', 0)
    {
      hide CopyBack, AutomatonOk, ReadFrom;
      CopyNothing(out, d);
      w' := w;
      var j := 0;
      while j < n
        invariant j <= n && w' == w + j == |out| + j && win[..w'] == CopyBack(out, d, j)
      {
        CopyBackSnoc(out, d, j + 1);
        ghost var before := win[..w'];
        win[w'] := win[w' - d];
        w' := w' + 1;
        j := j + 1;
        assert win[..w'] == before + [before[|before| - d]];
      }
      Restart(a, list, words, CopyBack(out, d, n));
    }

    /** The first matched status among positions j..len of the copied bytes, or the last. */
    method FindMatched(base: nat, j: nat, len: nat) returns (k: nat)
      requires Buffers() && j < len && base + len <= WSIZE
      ensures j <= k < len
    {
      k := len - 1;
      for fk := j to len
        invariant j <= k < len
      {
        if st[base + fk] == MATCHED {
          return fk;
        }
      }
    }

    /** The last shallow status among positions j..k, or j. */
    method FindShallow(base: nat, j: nat, k: nat) returns (p: nat)
      requires Buffers() && j <= k && base + k < WSIZE
      ensures j <= p <= k
    {
      var fp: int := k;
      while fp >= j
        invariant j - 1 <= fp <= k
      {
        if st[base + fp] == SHALLOW {
          return fp;
        }
        fp := fp - 1;
      }
      p := j;
    }

    /** Skips and scans positions j..k of a copy. */
    method ScanStretch(w: nat, d: nat, j: nat, k: nat, p: nat, state: int, ghost list: seq<Pattern>, ghost words: Words, ghost out: seq<Byte>, ghost s: nat)
      returns (w': nat, state': int, tag: bool, ghost s': nat, ghost more: nat)
      requires Scanning(list, words, w, out, s, state) && 1 <= d <= w && j <= p <= k && w + (k + 2 - j) < WSIZE
      modifies win, st
      ensures more <= k + 2 - j && w' == w + more && Scanning(list, words, w', CopyBack(out, d, more), s', state')
      ensures if tag then SomeOccurs(list, CopyBack(out, d, k + 1 - j)) else more == k + 1 - j
    {
      hide CopyBack, Scanning, SomeOccurs;
      WindowLength(list, words, w, out, s, state);
      CopyNothing(out, d);
      w', state', tag, s', more := w, state, false, s, 0;
      var at: nat := j;
      var done;
      if j + C_DEPTH <= p {
        var n := p + 1 - C_DEPTH - j;
        w' := Skip(w, d, n, state, list, words, out, s);
        state', s', more := 0, w', n;
        WindowLength(list, words, w', CopyBack(out, d, n), s', 0);
        w', state', tag, done := ScanRun(w', d, C_DEPTH - 1, 0, list, words, CopyBack(out, d, n), s');
        CopyBackAdd(out, d, n, done);
        more := n + done;
        at := if tag then p - C_DEPTH + done else p;
        if tag { Within(list, out, d, more, k + 1 - j); }
      }
      ghost var found := tag;
      WindowLength(list, words, w', CopyBack(out, d, more), s', state');
      var again;
      w', state', again, done := ScanRun(w', d, k + 1 - at, state', list, words, CopyBack(out, d, more), s');
      CopyBackAdd(out, d, more, done);
      more := more + done;
      tag := tag || again;
      if again && !found { Within(list, out, d, more, k + 1 - j); }
    }

    /** The start of a copy: scanned while a pattern may have begun before it. */
    method ScanHead(w: nat, d: nat, len: nat, state: int, ghost list: seq<Pattern>, ghost words: Words, ghost out: seq<Byte>, ghost s: nat)
      returns (w': nat, state': int, tag: bool, j: nat)
      requires Scanning(list, words, w, out, s, state) && 1 <= d <= w && w + len < WSIZE
      modifies win, st
      ensures j <= len && w' == w + j && Scanning(list, words, w', CopyBack(out, d, j), s, state')
      ensures tag ==> SomeOccurs(list, CopyBack(out, d, j))
    {
      hide CopyBack, SomeOccurs, AutomatonOk, ReadFrom;
      CopyNothing(out, d);
      w', state', tag, j := w, state, false, 0;
      while !tag && StateDepth(state', list, words, CopyBack(out, d, j), s) > j && j < len
        invariant j <= len && w' == w + j && Scanning(list, words, w', CopyBack(out, d, j), s, state')
        invariant tag ==> SomeOccurs(list, CopyBack(out, d, j))
        decreases len - j
      {
        var status;
        CopyBackSnoc(out, d, j + 1);
        w', state', status := ScanCopied(w', d, state', list, words, CopyBack(out, d, j), s);
        j := j + 1;
        tag := status == MATCHED;
      }
    }

    function StateDepth(state: int, ghost list: seq<Pattern>, ghost words: Words, ghost out: seq<Byte>, ghost s: nat): nat
      requires AutomatonOk(a, list, words) && ReadFrom(a, words, out, s, state)
    {
      a.depth[state]
    }

    /** One copy token: appended exactly, unless a match ends the scan. */
    method ScanCopy(w: nat, d: nat, len: nat, state: int, ghost list: seq<Pattern>, ghost words: Words, ghost out: seq<Byte>, ghost s: nat)
      returns (w': nat, state': int, tag: bool, ghost s': nat)
      requires Scanning(list, words, w, out, s, state) && 1 <= d <= w && 1 <= len <= 258 && w + len + 1 < WSIZE && InReach(w, d, len)
      modifies win, st
      ensures if tag then SomeOccurs(list, CopyBack(out, d, len)) && win[..|out|] == out
              else w' == w + len && Scanning(list, words, w', CopyBack(out, d, len), s', state')
    {
      hide CopyBack, Scanning, SomeOccurs;
      WindowLength(list, words, w, out, s, state);
      BuffersOk(list, words, w, out, s, state);
      var j;
      s' := s;
      w', state', tag, j := ScanHead(w, d, len, state, list, words, out, s);
      WindowKept(list, words, w', out, CopyBack(out, d, j), s', state');
      if tag {
        Within(list, out, d, j, len);
        return;
      }
      while j < len && !tag
        invariant j <= len && (!tag ==> w' == w + j && Scanning(list, words, w', CopyBack(out, d, j), s', state'))
        invariant tag ==> SomeOccurs(list, CopyBack(out, d, len))
        invariant |out| <= win.Length && win[..|out|] == out
        decreases len - j, !tag
      {
        var base := w' - d;
        BuffersOk(list, words, w', CopyBack(out, d, j), s', state');
        var k := FindMatched(base, j, len);
        var p := FindShallow(base, j, k);
        ghost var more;
        w', state', tag, s', more := ScanStretch(w', d, j, k, p, state', list, words, CopyBack(out, d, j), s');
        CopyBackAdd(out, d, j, more);
        WindowKept(list, words, w', out, CopyBack(out, d, j + more), s', state');
        CopyBackAdd(out, d, j, k + 1 - j);
        if tag { Within(list, out, d, k + 1, len); }
        j := k + 1;
      }
    }

    /** What had been decoded stays in front of what is decoded since. */
    lemma WindowKept(list: seq<Pattern>, words: Words, w: nat, out: seq<Byte>, more: seq<Byte>, s: nat, state: int)
      requires Scanning(list, words, w, more, s, state) && out <= more
      ensures |out| <= win.Length && win[..|out|] == out
    {
      assert win[..w][..|out|] == win[..|out|];
    }

    lemma BuffersOk(list: seq<Pattern>, words: Words, w: nat, out: seq<Byte>, s: nat, state: int)
      requires Scanning(list, words, w, out, s, state)
      ensures Buffers()
    {
    }

    /** A literal token. */
    method ScanLiteral(w: nat, b: Byte, state: int, ghost list: seq<Pattern>, ghost words: Words, ghost out: seq<Byte>, ghost s: nat)
      returns (w': nat, state': int, tag: bool)
      requires Scanning(list, words, w, out, s, state) && w < WSIZE - 1
      modifies win, st
      ensures tag ==> SomeOccurs(list, out + [b]) && win[..|out|] == out
      ensures !tag ==> w' == w + 1 && Scanning(list, words, w', out + [b], s, state') && (s == 0 ==> !SomeEnds(list, out + [b]))
    {
      hide AutomatonOk, ReadFrom, SomeOccurs, SomeEnds;
      var status;
      state', status := ScanAc(state, b, list, words, out, s);
      win[w] := b;
      assert win[..w] == out;
      w' := w;
      tag := status == MATCHED;
      if !tag {
        st[w] := status;
        w' := w + 1;
        assert win[..w'] == out + [b];
      }
    }

    /** acch: 1 if a pattern turned up.  The decoded text must end before the window does, and
        the look-ups ahead must stay in the status buffer; a byte is to spare because a
        match within a copy may be scanned twice. */
    method Run(toks: seq<Token>, ghost list: seq<Pattern>, ghost words: Words) returns (found: bool, textLen: nat)
      requires Buffers() && AutomatonOk(a, list, words)
      requires TokensOk([], toks) && |Expand([], toks)| + 1 < WSIZE && AllInReach(toks)
      modifies win, st
      ensures found ==> textLen < |toks| && Decodes(toks, textLen) && Decodes(toks, textLen + 1) && SomeOccurs(list, Expand([], toks[..textLen + 1]))
      ensures found ==> var out := Expand([], toks[..textLen]); |out| <= win.Length && win[..|out|] == out
      ensures !found ==> win[..|Expand([], toks)|] == Expand([], toks)
      ensures (forall i :: 0 <= i < |toks| ==> toks[i].dist == 0) && [] !in list ==> (found <==> SomeOccurs(list, Expand([], toks)))
    {
      hide Expand, TokensOk, CopyBack, SomeOccurs, SomeEnds, AutomatonOk, ReadFrom;
      ghost var literal := forall i :: 0 <= i < |toks| ==> toks[i].dist == 0;
      ghost var s: nat := 0;
      ghost var out: seq<Byte> := [];
      Restart(a, list, words, []);
      ExpandNothing([]);
      if [] !in list { NothingOccurs(list); }
      assert toks[..0] == [];
      var w, state, tag := 0, 0, false;
      textLen := 0;
      for i := 0 to |toks|
        invariant Decodes(toks, i) && out == Expand([], toks[..i])
        invariant Scanning(list, words, w, out, s, state)
        invariant literal && [] !in list ==> s == 0 && !SomeOccurs(list, out)
      {
        ExpandSnoc([], toks, i);
        ExpandPrefix(toks, i + 1);
        ghost var s';
        var w', state';
        if toks[i].dist == 0 {
          w', state', tag := ScanLiteral(w, toks[i].lit, state, list, words, out, s);
          s' := s;
          if [] !in list && s == 0 && SomeOccurs(list, out + [toks[i].lit]) { OccursOrEnds(list, out, toks[i].lit); }
        } else {
          w', state', tag, s' := ScanCopy(w, toks[i].dist, toks[i].lit + 3, state, list, words, out, s);
        }
        if tag {
          textLen := i;
          SomeOccursLater(list, Expand([], toks[..i + 1]), Expand([], toks));
          return true, textLen;
        }
        w, state, s := w', state', s';
        out := Expand([], toks[..i + 1]);
      }
      assert toks[..|toks|] == toks;
      found := false;
    }
  }

  /** Looking for matched statuses, a copy to position w reads the status buffer from its
      source on, but as far ahead as the copy is already done. */
  predicate InReach(w: nat, d: nat, len: nat) { w + 2 * len <= WSIZE + d + 1 }

  ghost predicate AllInReach(toks: seq<Token>)
    requires TokensOk([], toks)
  {
    forall i :: 0 <= i < |toks| && toks[i].dist > 0 ==> Decodes(toks, i) && InReach(|Expand([], toks[..i])|, toks[i].dist, toks[i].lit + 3)
  }

  ghost predicate Decodes(toks: seq<Token>, i: nat) {
    i <= |toks| && TokensOk([], toks[..i])
  }

  lemma {:induction false} ExpandPrefix(toks: seq<Token>, i: nat)
    requires TokensOk([], toks) && i <= |toks|
    ensures TokensOk([], toks[..i]) && Expand([], toks[..i]) <= Expand([], toks)
    decreases |toks| - i
  {
    hide CopyBack;
    if i < |toks| {
      ExpandSnoc([], toks, i);
      ExpandPrefix(toks, i + 1);
    } else {
      assert toks[..i] == toks;
    }
  }

  /** What occurs in part of a copy occurs in all of it. */
  lemma Within(list: seq<Pattern>, out: seq<Byte>, d: nat, a: nat, b: nat)
    requires 1 <= d <= |out| && a <= b && SomeOccurs(list, CopyBack(out, d, a))
    ensures SomeOccurs(list, CopyBack(out, d, b))
  {
    CopyBackAdd(out, d, a, b - a);
    SomeOccursLater(list, CopyBack(out, d, a), CopyBack(out, d, b));
  }
}
