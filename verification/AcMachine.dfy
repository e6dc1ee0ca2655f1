/** The keyword automaton: trie insertion, breadth-first failure links fused with the
    completion of the rows, match-list inheritance, and the searches over the table. */
module AcMachine {
  import opened Common
  import opened AcSpec

  const ALPHABET_SIZE := 256
  const FAIL_STATE := -1

  /** One row of the state table. */
  datatype Row = Row(next: seq<int>, fail: int, matches: seq<Pattern>)

  type Table = seq<Row>

  type Words = seq<seq<Byte>>

  predicate Shape(t: Table) {
    forall s :: 0 <= s < |t| ==> |t[s].next| == ALPHABET_SIZE
  }

  predicate IsBlank(row: Row) {
    row == Row(seq(ALPHABET_SIZE, i => FAIL_STATE), 0, [])
  }

  function SetNext(t: Table, s: nat, c: Byte, v: int): (r: Table)
    requires Shape(t) && s < |t|
    ensures Shape(r) && |r| == |t|
  {
    t[s := t[s].(next := t[s].next[c := v])]
  }

  // ---------- The trie ----------

  /** words numbers the prefixes of the patterns and of extra, each once, root first. */
  ghost predicate Numbering(patterns: seq<Pattern>, extra: seq<Byte>, words: Words) {
    && words != [] && words[0] == []
    && (forall i, j :: 0 <= i < j < |words| ==> words[i] != words[j])
    && (forall w :: w in words <==> InTrie(patterns, w) || w <= extra)
  }

  /** The edge of state s on c in the bare trie; `none` stands for a missing child. */
  ghost predicate TrieEdge(words: Words, t: Table, s: nat, c: Byte, none: int)
    requires Shape(t) && s < |words| <= |t|
  {
    var v := t[s].next[c];
    if words[s] + [c] in words then 0 < v < |words| && words[v] == words[s] + [c] else v == none
  }

  ghost predicate TrieTable(patterns: seq<Pattern>, extra: seq<Byte>, words: Words, t: Table) {
    && Shape(t) && |words| <= |t|
    && Numbering(patterns, extra, words)
    && (forall s: nat, c: Byte :: s < |words| ==> TrieEdge(words, t, s, c, FAIL_STATE))
    && (forall s :: 0 <= s < |words| ==> multiset(t[s].matches) == Own(patterns, words[s]))
    && (forall s :: |words| <= s < |t| ==> IsBlank(t[s]))
  }

  lemma WordPrefixes(patterns: seq<Pattern>, extra: seq<Byte>, words: Words, w: seq<Byte>, k: nat)
    requires Numbering(patterns, extra, words) && w in words && k <= |w|
    ensures w[..k] in words
  {
    if InTrie(patterns, w) {
      PrefixInTrie(patterns, w, k);
    } else {
      assert w[..k] <= extra;
    }
  }

  /** A new state for one more byte of the pattern being inserted. */
  lemma {:induction false} ExtendTrie(patterns: seq<Pattern>, extra: seq<Byte>, words: Words, t: Table, s: nat, c: Byte)
    requires TrieTable(patterns, extra, words, t)
    requires s < |words| < |t| && words[s] == extra && t[s].next[c] == FAIL_STATE
    ensures TrieTable(patterns, extra + [c], words + [extra + [c]], SetNext(t, s, c, |words|))
  {
    var w' := extra + [c];
    var words' := words + [w'];
    var t' := SetNext(t, s, c, |words|);
    assert TrieEdge(words, t, s, c, FAIL_STATE);
    assert w' !in words;
    assert Numbering(patterns, w', words') by {
      forall w ensures w in words' <==> InTrie(patterns, w) || w <= w' {
        if w <= w' && w != w' { assert w <= extra; }
      }
    }
    forall x: nat, d: Byte | x < |words'|
      ensures TrieEdge(words', t', x, d, FAIL_STATE)
    {
      if x == |words| {
        assert IsBlank(t[x]);
        assert w' + [d] !in words by {
          assert (w' + [d])[..|w'|] == w';
          if w' + [d] in words { WordPrefixes(patterns, extra, words, w' + [d], |w'|); }
        }
      } else {
        assert TrieEdge(words, t, x, d, FAIL_STATE);
        if words[x] + [d] == w' {
          assert words[x] == w'[..|w'| - 1] == extra;
        }
      }
    }
  }

  /** Walking along existing children inserts nothing. */
  lemma {:induction false} WalkedTrie(patterns: seq<Pattern>, extra: seq<Byte>, words: Words, t: Table)
    requires TrieTable(patterns, [], words, t) && extra in words
    ensures TrieTable(patterns, extra, words, t)
  {
    forall w ensures w in words <==> InTrie(patterns, w) || w <= extra {
      if w <= extra {
        WordPrefixes(patterns, [], words, extra, |w|);
      }
    }
  }

  lemma OneMorePattern(patterns: seq<Pattern>, p: Pattern, w: seq<Byte>)
    ensures InTrie(patterns + [p], w) <==> InTrie(patterns, w) || w <= p
  {
    if InTrie(patterns, w) && w != [] {
      var i :| 0 <= i < |patterns| && w <= patterns[i];
      assert w <= (patterns + [p])[i];
    }
    if w <= p {
      assert w <= (patterns + [p])[|patterns|];
    }
  }

  /** Putting the entry on the match list of its last state makes the pattern a listed one. */
  lemma {:induction false} AcceptPattern(patterns: seq<Pattern>, p: Pattern, words: Words, t: Table, s: nat)
    requires TrieTable(patterns, p, words, t) && s < |words| && words[s] == p
    ensures TrieTable(patterns + [p], [], words, t[s := t[s].(matches := [p] + t[s].matches)])
  {
    var t' := t[s := t[s].(matches := [p] + t[s].matches)];
    forall w ensures InTrie(patterns + [p], w) <==> InTrie(patterns, w) || w <= p {
      OneMorePattern(patterns, p, w);
    }
    hide InTrie;
    forall x: nat, d: Byte | x < |words|
      ensures TrieEdge(words, t', x, d, FAIL_STATE)
    {
      assert TrieEdge(words, t, x, d, FAIL_STATE);
    }
  }

  // ---------- Breadth-first completion ----------

  ghost predicate DoneEdge(patterns: seq<Pattern>, words: Words, t: Table, s: nat, c: Byte)
    requires Shape(t) && s < |words| <= |t|
  {
    var v := t[s].next[c];
    0 <= v < |words| && words[v] == LongestSuffix(patterns, words[s] + [c])
  }

  /** State s has its final failure link and its final match list. */
  ghost predicate Linked(patterns: seq<Pattern>, words: Words, t: Table, found: set<nat>, s: nat)
    requires s < |words| <= |t|
  {
    && multiset(t[s].matches) == Matches(patterns, words[s])
    && (words[s] != [] ==>
          0 <= t[s].fail < |words| && t[s].fail in found
          && words[t[s].fail] == FailWord(patterns, words[s]))
  }

  /** Edge (s, c) has been visited: its row is finished, or is row r up to column i. */
  ghost predicate Visited(todo: set<nat>, r: nat, i: nat, s: nat, c: nat) {
    s !in todo || (s == r && c < i)
  }

  /** State s is the child of state u on c. */
  ghost predicate Child(words: Words, u: nat, c: Byte, s: nat) {
    u < |words| && s < |words| && words[s] == words[u] + [c]
  }

  /** An edge is finished once visited and a trie edge before that. */
  ghost predicate EdgeOk(patterns: seq<Pattern>, words: Words, t: Table, todo: set<nat>, r: nat, i: nat, s: nat, c: Byte)
    requires Shape(t) && s < |words| <= |t|
  {
    if Visited(todo, r, i, s, c) then DoneEdge(patterns, words, t, s, c)
    else TrieEdge(words, t, s, c, if s == 0 then 0 else FAIL_STATE)
  }

  /** What is queued: exactly the found rows not yet visited, each once, in order of
      depth, at most one level apart. */
  ghost predicate QueueOk(words: Words, todo: set<nat>, found: set<nat>, queue: seq<nat>, r: nat) {
    && r < |words|
    && (forall x :: x in queue <==> x in found && x in todo && x != r)
    && (forall x :: x in queue ==> x < |words| && |words[r]| <= |words[x]| <= |words[r]| + 1)
    && (forall j, k :: 0 <= j < k < |queue| ==>
          queue[j] != queue[k] && queue[j] < |words| && queue[k] < |words| && |words[queue[j]]| <= |words[queue[k]]|)
  }

  /** The state of the breadth-first pass while row r is visited up to column i: todo
      holds the rows not finished, found the states ever queued. */
  ghost predicate Bfs(patterns: seq<Pattern>, words: Words, t: Table, todo: set<nat>, found: set<nat>, r: nat, i: nat) {
    && Shape(t) && |words| <= |t|
    && (forall s: nat :: s in todo || s in found ==> s < |words|)
    && 0 in found && r in todo && r in found
    && (forall s: nat, c: Byte :: s < |words| ==> EdgeOk(patterns, words, t, todo, r, i, s, c))
    && (forall s :: s in found ==> Linked(patterns, words, t, found, s))
    && (forall s: nat :: s < |words| && s !in found ==> s in todo && multiset(t[s].matches) == Own(patterns, words[s]))
    && (forall u: nat, c: Byte, s: nat :: Child(words, u, c, s) ==> (s in found <==> Visited(todo, r, i, u, c)))
    && Numbering(patterns, [], words)
  }

  lemma ParentOf(patterns: seq<Pattern>, words: Words, s: nat) returns (u: nat, c: Byte)
    requires Numbering(patterns, [], words) && s < |words| && words[s] != []
    ensures Child(words, u, c, s)
  {
    var n := |words[s]| - 1;
    WordPrefixes(patterns, [], words, words[s], n);
    u :| u < |words| && words[u] == words[s][..n];
    c := words[s][n];
  }

  /** Every row shallower than the one being visited is finished, and every state at
      most as deep has been queued: the breadth-first order at work. */
  lemma {:induction false} ShallowDone(patterns: seq<Pattern>, words: Words, t: Table, todo: set<nat>, found: set<nat>, queue: seq<nat>, r: nat, i: nat, s: nat)
    requires Bfs(patterns, words, t, todo, found, r, i) && QueueOk(words, todo, found, queue, r)
    requires s < |words| && |words[s]| <= |words[r]|
    ensures s in found
    ensures |words[s]| < |words[r]| ==> s !in todo
    decreases |words[s]|
  {
    if words[s] == [] {
      assert s == 0;
    } else {
      var u, c := ParentOf(patterns, words, s);
      ShallowDone(patterns, words, t, todo, found, queue, r, i, u);
    }
  }

  /** A visited byte with a child leads to a state that was never queued before. */
  lemma {:induction false} ChildIsNew(patterns: seq<Pattern>, words: Words, t: Table, todo: set<nat>, found: set<nat>, r: nat, i: Byte)
    requires Bfs(patterns, words, t, todo, found, r, i)
    requires var s := t[r].next[i]; s != FAIL_STATE && (r == 0 ==> s != 0)
    ensures var s := t[r].next[i]; 0 < s < |words| && Child(words, r, i, s) && s !in found
  {
    assert EdgeOk(patterns, words, t, todo, r, i, r, i);
    var s := t[r].next[i];
    assert Child(words, r, i, s);
  }

  /** Edges other than the one just visited keep their status. */
  lemma {:induction false} EdgesAfterVisit(patterns: seq<Pattern>, words: Words, t: Table, t': Table, todo: set<nat>, r: nat, i: Byte)
    requires Shape(t) && Shape(t') && r < |words| <= |t| == |t'|
    requires forall u: nat, c: Byte {:trigger t'[u].next[c]} :: u < |t| && (u != r || c != i) ==> t'[u].next[c] == t[u].next[c]
    requires forall u: nat, c: Byte :: u < |words| ==> EdgeOk(patterns, words, t, todo, r, i, u, c)
    requires DoneEdge(patterns, words, t', r, i)
    ensures forall u: nat, c: Byte {:trigger EdgeOk(patterns, words, t', todo, r, i + 1, u, c)} :: u < |words| ==> EdgeOk(patterns, words, t', todo, r, i + 1, u, c)
  {
    hide InTrie, LongestSuffix, Shape;
    forall u: nat, c: Byte {:trigger EdgeOk(patterns, words, t', todo, r, i + 1, u, c)} | u < |words|
      ensures EdgeOk(patterns, words, t', todo, r, i + 1, u, c)
    {
      assert EdgeOk(patterns, words, t, todo, r, i, u, c);
    }
  }

  /** Discovering child s of row r on byte i: it is queued, linked to the state f of its
      failure word, and given its final match list. */
  lemma {:induction false} ChildStep(patterns: seq<Pattern>, words: Words, t: Table, todo: set<nat>, found: set<nat>,
                                     r: nat, i: Byte, s: nat, f: nat, matches: seq<Pattern>)
    requires Bfs(patterns, words, t, todo, found, r, i)
    requires Child(words, r, i, s) && t[r].next[i] == s && s !in found
    requires f in found && words[f] == FailWord(patterns, words[s])
    requires multiset(matches) == Matches(patterns, words[s])
    ensures Bfs(patterns, words, t[s := Row(t[s].next, f, matches)], todo, found + {s}, r, i + 1)
  {
    hide InTrie, LongestSuffix, Matches, Own, Numbering, FailWord;
    var found' := found + {s};
    var t' := t[s := Row(t[s].next, f, matches)];
    WordIsLongest(patterns, words, s);
    EdgesAfterVisit(patterns, words, t, t', todo, r, i);
    hide EdgeOk;
    forall x | x in found'
      ensures Linked(patterns, words, t', found', x)
    {
      if x != s { assert Linked(patterns, words, t, found, x); }
    }
    forall u: nat, c: Byte, x: nat | Child(words, u, c, x)
      ensures x in found' <==> Visited(todo, r, i + 1, u, c)
    {
      assert x in found <==> Visited(todo, r, i, u, c);
      SameChild(patterns, words, r, i, s, u, c, x);
    }
  }

  lemma SameChild(patterns: seq<Pattern>, words: Words, r: nat, i: Byte, s: nat, u: nat, c: Byte, x: nat)
    requires Numbering(patterns, [], words)
    requires Child(words, r, i, s) && Child(words, u, c, x)
    ensures x == s <==> u == r && c == i
  {
    if x == s {
      assert words[u] == words[s][..|words[s]| - 1] == words[r];
      assert c == words[s][|words[s]| - 1] == i;
    }
  }

  lemma WordIsLongest(patterns: seq<Pattern>, words: Words, s: nat)
    requires Numbering(patterns, [], words) && s < |words|
    ensures LongestSuffix(patterns, words[s]) == words[s]
  {
    assert words[s] in words;
  }

  lemma MissingWord(patterns: seq<Pattern>, words: Words, w: seq<Byte>)
    requires Numbering(patterns, [], words)
    ensures w in words <==> InTrie(patterns, w)
  {
  }

  lemma QueueStep(words: Words, todo: set<nat>, found: set<nat>, queue: seq<nat>, r: nat, i: Byte, s: nat)
    requires QueueOk(words, todo, found, queue, r)
    requires Child(words, r, i, s) && s !in found && s in todo && s != r
    ensures QueueOk(words, todo, found + {s}, queue + [s], r)
  {
    assert forall x :: x in queue + [s] <==> x in queue || x == s;
  }

  /** A visited byte without a child takes over the finished edge of the failure row. */
  lemma {:induction false} FillEdge(patterns: seq<Pattern>, words: Words, t: Table, todo: set<nat>, found: set<nat>,
                                    queue: seq<nat>, r: nat, i: Byte)
    requires Bfs(patterns, words, t, todo, found, r, i) && QueueOk(words, todo, found, queue, r)
    requires words[r] != [] && r != 0 && t[r].next[i] == FAIL_STATE
    ensures 0 <= t[r].fail < |words| && words[r] + [i] !in words
    ensures DoneEdge(patterns, words, SetNext(t, r, i, t[t[r].fail].next[i]), r, i)
  {
    hide InTrie, LongestSuffix, Matches, Own, Numbering;
    assert Linked(patterns, words, t, found, r);
    var f := t[r].fail;
    MissingWord(patterns, words, words[r] + [i]);
    ShallowDone(patterns, words, t, todo, found, queue, r, i, f);
    assert EdgeOk(patterns, words, t, todo, r, i, f, i);
    assert EdgeOk(patterns, words, t, todo, r, i, r, i);
    FailStep(patterns, words[r], i);
  }

  lemma {:induction false} FillStep(patterns: seq<Pattern>, words: Words, t: Table, todo: set<nat>, found: set<nat>, r: nat, i: Byte, v: int)
    requires Bfs(patterns, words, t, todo, found, r, i)
    requires words[r] + [i] !in words && DoneEdge(patterns, words, SetNext(t, r, i, v), r, i)
    ensures Bfs(patterns, words, SetNext(t, r, i, v), todo, found, r, i + 1)
  {
    hide InTrie, LongestSuffix, Matches, Own, Numbering, FailWord;
    var t' := SetNext(t, r, i, v);
    EdgesAfterVisit(patterns, words, t, t', todo, r, i);
    assert forall x: nat :: x < |t| ==> t'[x].fail == t[x].fail && t'[x].matches == t[x].matches;
    hide EdgeOk, SetNext, DoneEdge;
    forall x | x in found
      ensures Linked(patterns, words, t', found, x)
    {
      assert Linked(patterns, words, t, found, x);
    }
    hide Linked;
    forall u: nat, c: Byte, x: nat | Child(words, u, c, x)
      ensures x in found <==> Visited(todo, r, i + 1, u, c)
    {
      assert x in found <==> Visited(todo, r, i, u, c);
      assert words[x] in words;
    }
  }

  // ---------- Reading the finished automaton ----------

  /** Every row is final: state s of any word reads c into the longest suffix of that
      word and c, and its match list is what Matches says. */
  ghost predicate Compiled(patterns: seq<Pattern>, words: Words, t: Table) {
    && Shape(t) && |words| <= |t|
    && (forall s: nat, c: Byte :: s < |words| ==> DoneEdge(patterns, words, t, s, c))
    && (forall s: nat :: s < |words| ==> multiset(t[s].matches) == Matches(patterns, words[s]))
    && Numbering(patterns, [], words)
  }

  /** The pass is over: nothing is left to visit. */
  lemma {:induction false} AllVisited(patterns: seq<Pattern>, words: Words, t: Table, todo: set<nat>, found: set<nat>, r: nat)
    requires Bfs(patterns, words, t, todo, found, r, ALPHABET_SIZE) && QueueOk(words, todo, found, [], r)
    ensures Compiled(patterns, words, t)
  {
    hide InTrie, LongestSuffix, Matches, Own, Numbering;
    forall s: nat | s < |words|
      ensures s in found && (s == r || s !in todo)
    {
      NothingLeft(patterns, words, t, todo, found, r, s);
    }
    forall s: nat, c: Byte {:trigger DoneEdge(patterns, words, t, s, c)} | s < |words|
      ensures DoneEdge(patterns, words, t, s, c)
    {
      assert EdgeOk(patterns, words, t, todo, r, ALPHABET_SIZE, s, c);
    }
    forall s: nat | s < |words|
      ensures multiset(t[s].matches) == Matches(patterns, words[s])
    {
      assert Linked(patterns, words, t, found, s);
    }
  }

  lemma {:induction false} NothingLeft(patterns: seq<Pattern>, words: Words, t: Table, todo: set<nat>, found: set<nat>, r: nat, s: nat)
    requires Bfs(patterns, words, t, todo, found, r, ALPHABET_SIZE) && QueueOk(words, todo, found, [], r)
    requires s < |words|
    ensures s in found && (s == r || s !in todo)
    decreases |words[s]|
  {
    hide InTrie, LongestSuffix, Matches, Own;
    if words[s] == [] {
      assert s == 0;
    } else {
      var u, c := ParentOf(patterns, words, s);
      NothingLeft(patterns, words, t, todo, found, r, u);
      assert Child(words, u, c, s);
    }
    var none: seq<nat> := [];
    assert s !in none;
  }

  /** Row r is finished and the head of the queue is next. */
  lemma {:induction false} NextRow(patterns: seq<Pattern>, words: Words, t: Table, todo: set<nat>, found: set<nat>, queue: seq<nat>, r: nat)
    requires Bfs(patterns, words, t, todo, found, r, ALPHABET_SIZE) && QueueOk(words, todo, found, queue, r)
    requires queue != []
    ensures Bfs(patterns, words, t, todo - {r}, found, queue[0], 0)
    ensures QueueOk(words, todo - {r}, found, queue[1..], queue[0])
  {
    hide InTrie, LongestSuffix, Matches, Own, Numbering, DoneEdge, TrieEdge, Linked;
    var todo', r' := todo - {r}, queue[0];
    assert r' in queue;
    forall s: nat, c: Byte {:trigger EdgeOk(patterns, words, t, todo', r', 0, s, c)} | s < |words|
      ensures EdgeOk(patterns, words, t, todo', r', 0, s, c)
    {
      assert EdgeOk(patterns, words, t, todo, r, ALPHABET_SIZE, s, c);
    }
    forall u: nat, c: Byte, s: nat | Child(words, u, c, s)
      ensures s in found <==> Visited(todo', r', 0, u, c)
    {
      assert s in found <==> Visited(todo, r, ALPHABET_SIZE, u, c);
    }
    assert queue == [r'] + queue[1..];
    assert forall x :: x in queue <==> x == r' || x in queue[1..];
  }

  /** The hits of one text, in the order the search meets them: each is the pattern and
      the position just after its last byte. */
  datatype Hit = Hit(pattern: Pattern, end: nat)

  ghost function RunTo(t: Table, text: seq<Byte>): int
  {
    if text == [] then 0
    else
      var s := RunTo(t, text[..|text| - 1]);
      if 0 <= s < |t| && |t[s].next| == ALPHABET_SIZE then t[s].next[text[|text| - 1]] else FAIL_STATE
  }

  lemma RootOfEmpty(patterns: seq<Pattern>, words: Words)
    requires Numbering(patterns, [], words)
    ensures words != [] && words[0] == LongestSuffix(patterns, [])
  {
  }

  /** After any text the automaton stands in the state of the longest suffix in the trie. */
  lemma {:induction false} RunIsLongestSuffix(patterns: seq<Pattern>, words: Words, t: Table, text: seq<Byte>)
    requires Compiled(patterns, words, t)
    ensures 0 <= RunTo(t, text) < |words|
    ensures words[RunTo(t, text)] == LongestSuffix(patterns, text)
  {
    hide InTrie, LongestSuffix, Matches;
    if text == [] {
      RootOfEmpty(patterns, words);
    } else {
      var front, c := text[..|text| - 1], text[|text| - 1];
      RunIsLongestSuffix(patterns, words, t, front);
      assert text == front + [c];
      assert DoneEdge(patterns, words, t, RunTo(t, front), c);
      LongestSuffixStep(patterns, front, c);
    }
  }

  ghost function HitsOf(matches: seq<Pattern>, end: nat): (hits: seq<Hit>)
    ensures |hits| == |matches|
    ensures forall k :: 0 <= k < |hits| ==> hits[k] == Hit(matches[k], end)
  {
    seq(|matches|, k requires 0 <= k < |matches| => Hit(matches[k], end))
  }

  ghost function MatchesAt(t: Table, s: int): seq<Pattern> {
    if 0 <= s < |t| then t[s].matches else []
  }

  ghost function AllHits(t: Table, text: seq<Byte>): seq<Hit> {
    if text == [] then []
    else AllHits(t, text[..|text| - 1]) + HitsOf(MatchesAt(t, RunTo(t, text)), |text|)
  }

  /** How often pattern p must be reported with its last byte just before position end. */
  ghost function Owed(patterns: seq<Pattern>, text: seq<Byte>, p: Pattern, end: nat): nat {
    if !(1 <= end <= |text|) then 0
    else if p != [] then (if IsSuffix(p, text[..end]) then multiset(patterns)[p] else 0)
    else if InTrie(patterns, [text[end - 1]]) then 0
    else multiset(patterns)[p]
  }

  lemma {:induction false} HitsOfCount(matches: seq<Pattern>, end: nat, p: Pattern, e: nat)
    ensures multiset(HitsOf(matches, end))[Hit(p, e)] == if e == end then multiset(matches)[p] else 0
  {
    var hits := HitsOf(matches, end);
    if matches != [] {
      var n := |matches| - 1;
      HitsOfCount(matches[..n], end, p, e);
      assert matches == matches[..n] + [matches[n]];
      assert hits == HitsOf(matches[..n], end) + [Hit(matches[n], end)];
    }
  }

  /** The search is exact: for every pattern list and every text, each listed non-empty
      pattern is hit once per list entry at exactly the positions where it ends, and
      nothing else is hit; empty entries are hit where the last byte starts no pattern. */
  lemma {:induction false} SearchIsExact(patterns: seq<Pattern>, words: Words, t: Table, text: seq<Byte>, p: Pattern, end: nat)
    requires Compiled(patterns, words, t)
    ensures multiset(AllHits(t, text))[Hit(p, end)] == Owed(patterns, text, p, end)
  {
    hide RunTo, InTrie, Numbering, DoneEdge, IsSuffix, LongestSuffix;
    if text != [] {
      var n := |text| - 1;
      SearchIsExact(patterns, words, t, text[..n], p, end);
      assert end <= n ==> text[..n][..end] == text[..end];
      HitsOfCount(MatchesAt(t, RunTo(t, text)), |text|, p, end);
      ReportAtEnd(patterns, words, t, text, p);
    }
  }

  lemma {:induction false} ReportAtEnd(patterns: seq<Pattern>, words: Words, t: Table, text: seq<Byte>, p: Pattern)
    requires Compiled(patterns, words, t) && text != []
    ensures multiset(MatchesAt(t, RunTo(t, text)))[p] == Owed(patterns, text, p, |text|)
  {
    hide RunTo, InTrie, Numbering, DoneEdge, IsSuffix;
    RunIsLongestSuffix(patterns, words, t, text);
    MatchesAreExact(patterns, text);
    assert text[..|text|] == text;
  }

  /** The empty pattern and the pattern "a". */
  function EmptyAndA(): (patterns: seq<Pattern>)
    ensures |patterns| == 2 && patterns[0] == [] && patterns[1] == [97]
  {
    [[], [97]]
  }

  lemma EmptyEntryOwed()
    ensures Owed(EmptyAndA(), [97], [], 1) == 0 && Owed(EmptyAndA(), [97], [97], 1) == 1 && Owed(EmptyAndA(), [98], [], 1) == 1
  {
    var patterns := EmptyAndA();
    assert patterns == [patterns[0]] + [patterns[1]];
    assert multiset(patterns)[[]] == 1 && multiset(patterns)[[97]] == 1;
    hide EmptyAndA;
    assert patterns[1] <= patterns[1] && InTrie(patterns, [97]);
    var a: seq<Byte>, b: seq<Byte> := [97], [98];
    assert b[0] != patterns[1][0];
    assert !InTrie(patterns, b);
    assert a[..1] == a && IsSuffix(a, a);
  }

  /** So an empty entry is found at the end of one text and missed at the end of another:
      beside the pattern "a" it is hit in "b", but not in "a". */
  lemma EmptyEntryMissed(words: Words, t: Table)
    requires Compiled(EmptyAndA(), words, t)
    ensures multiset(AllHits(t, [97]))[Hit([], 1)] == 0 && multiset(AllHits(t, [97]))[Hit([97], 1)] == 1
    ensures multiset(AllHits(t, [98]))[Hit([], 1)] == 1
  {
    hide Compiled, AllHits, Owed, EmptyAndA;
    EmptyEntryOwed();
    SearchIsExact(EmptyAndA(), words, t, [97], [], 1);
    SearchIsExact(EmptyAndA(), words, t, [97], [97], 1);
    SearchIsExact(EmptyAndA(), words, t, [98], [], 1);
  }

  /** A reported offset is the true start of the pattern in the text. */
  lemma {:induction false} OffsetsAreStarts(patterns: seq<Pattern>, words: Words, t: Table, text: seq<Byte>, k: nat)
    requires Compiled(patterns, words, t) && k < |AllHits(t, text)|
    ensures var hit := AllHits(t, text)[k];
            |hit.pattern| <= hit.end <= |text| && text[hit.end - |hit.pattern|..hit.end] == hit.pattern
  {
    var hit := AllHits(t, text)[k];
    assert hit in multiset(AllHits(t, text));
    SearchIsExact(patterns, words, t, text, hit.pattern, hit.end);
    if hit.pattern != [] {
      assert text[..hit.end][hit.end - |hit.pattern|..] == text[hit.end - |hit.pattern|..hit.end];
    }
  }

}
