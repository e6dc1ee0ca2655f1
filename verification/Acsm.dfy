/** The automaton object: the pattern list, its compilation and the searches. */
module AcsmObject {
  import opened Common
  import opened AcSpec
  import opened AcMachine

  function TotalLength(patterns: seq<Pattern>): nat {
    if patterns == [] then 0 else TotalLength(patterns[..|patterns| - 1]) + |patterns[|patterns| - 1]|
  }

  lemma {:induction false} TotalLengthMonotone(patterns: seq<Pattern>, k: nat)
    requires k <= |patterns|
    ensures TotalLength(patterns[..k]) <= TotalLength(patterns)
    ensures k < |patterns| ==> TotalLength(patterns[..k]) + |patterns[k]| <= TotalLength(patterns)
  {
    if k < |patterns| {
      var front := patterns[..|patterns| - 1];
      if k < |front| {
        TotalLengthMonotone(front, k);
        assert front[..k] == patterns[..k];
      } else {
        assert front == patterns[..k];
      }
    } else {
      assert patterns[..k] == patterns;
    }
  }

  /** The bytes before the first zero byte: what strcmp looks at. */
  function CString(s: seq<Byte>): seq<Byte> {
    if s == [] || s[0] == 0 then [] else [s[0]] + CString(s[1..])
  }

  /** strcmp finds no difference. */
  predicate SameString(a: seq<Byte>, b: seq<Byte>) { CString(a) == CString(b) }

  lemma {:induction false} CStringIs(s: seq<Byte>)
    requires forall i :: 0 <= i < |s| ==> s[i] != 0
    ensures CString(s) == s
  {
    if s != [] {
      CStringIs(s[1..]);
    }
  }

  /** For patterns without zero bytes, which is what the callers hand over, that is equality. */
  lemma SameStringIsEqual(a: seq<Byte>, b: seq<Byte>)
    requires 0 !in a && 0 !in b
    ensures SameString(a, b) <==> a == b
  {
    CStringIs(a);
    CStringIs(b);
  }

  /** The list after removing a pattern: only its first occurrence goes. */
  function WithoutFirst(patterns: seq<Pattern>, p: Pattern): seq<Pattern> {
    if patterns == [] then []
    else if SameString(patterns[0], p) then patterns[1..]
    else [patterns[0]] + WithoutFirst(patterns[1..], p)
  }

  lemma {:induction false} WithoutFirstAt(patterns: seq<Pattern>, i: nat, p: Pattern)
    requires i <= |patterns| && forall n :: 0 <= n < i ==> !SameString(patterns[n], p)
    ensures i < |patterns| && SameString(patterns[i], p) ==> WithoutFirst(patterns, p) == patterns[..i] + patterns[i + 1..]
    ensures i == |patterns| ==> WithoutFirst(patterns, p) == patterns
  {
    if i > 0 {
      WithoutFirstAt(patterns[1..], i - 1, p);
      if i < |patterns| && SameString(patterns[i], p) {
        assert patterns[..i] + patterns[i + 1..] == [patterns[0]] + (patterns[1..][..i - 1] + patterns[1..][i..]);
      }
    }
  }

  class Acsm {
    var patterns: seq<Pattern>
    var maxStates: nat
    var numStates: nat
    var table: Table
    /** The depth of each state; only the copy of this object in acsm.c keeps it. */
    var dept: seq<nat>
    ghost var words: Words

    constructor ()
      ensures patterns == [] && table == [] && maxStates == numStates == 0
    {
      patterns, maxStates, numStates, table, dept, words := [], 0, 0, [], [], [];
    }

    /** Every state's depth is the length of its word. */
    ghost predicate DepthsOk()
      reads this
    {
      |dept| == |table| && |words| <= |table| && forall s :: 0 <= s < |words| ==> dept[s] == |words[s]|
    }

    /** The table answers for the given list. */
    ghost predicate AnswersFor(list: seq<Pattern>)
      reads this
    {
      Compiled(list, words, table) && |words| == numStates + 1 && numStates < |table| == maxStates
    }

    method AddPattern(p: Pattern)
      modifies `patterns
      ensures patterns == [p] + old(patterns)
    {
      patterns := [p] + patterns;
    }

    /** Removes the first entry that is the same string as p.  On the empty list the source reads through
        a null pointer, so callers must delete from a non-empty list. */
    method DelPattern(p: Pattern)
      requires patterns != []
      modifies `patterns
      ensures patterns == WithoutFirst(old(patterns), p)
    {
      hide WithoutFirst, SameString;
      WithoutFirstAt(patterns, 0, p);
      if SameString(patterns[0], p) {
        patterns := patterns[1..];
        return;
      }
      var i := 0;
      while i + 1 < |patterns|
        invariant i < |patterns| && patterns == old(patterns)
        invariant forall n :: 0 <= n <= i ==> !SameString(patterns[n], p)
      {
        if SameString(patterns[i + 1], p) {
          WithoutFirstAt(patterns, i + 1, p);
          patterns := patterns[..i + 1] + patterns[i + 2..];
          return;
        }
        i := i + 1;
      }
      WithoutFirstAt(patterns, |patterns|, p);
    }

    /** Follows the pattern along existing children, as far as they go. */
    method WalkStates(p: Pattern, ghost done: seq<Pattern>) returns (state: nat, n: nat)
      requires TrieTable(done, [], words, table)
      ensures n <= |p| && state < |words| <= |table| && words[state] == p[..n] && Shape(table)
      ensures p[..n] in words
      ensures n < |p| ==> table[state].next[p[n]] == FAIL_STATE
    {
      RootWord(done, [], words);
      hide InTrie, Numbering, IsBlank;
      state, n := 0, 0;
      while n < |p|
        invariant n <= |p| && state < |words| && words[state] == p[..n]
      {
        var next := table[state].next[p[n]];
        assert TrieEdge(words, table, state, p[n], FAIL_STATE);
        if next == FAIL_STATE {
          return;
        }
        state := next;
        n := n + 1;
        assert p[..n] == p[..n - 1] + [p[n - 1]];
      }
    }

    /** Inserts one pattern: along existing children first, then one new state per byte. */
    method AddPatternStates(p: Pattern, ghost done: seq<Pattern>)
      requires TrieTable(done, [], words, table)
      requires |words| == numStates + 1 && numStates + |p| < |table| && DepthsOk()
      modifies `numStates, `table, `dept, `words
      ensures TrieTable(done + [p], [], words, table) && DepthsOk()
      ensures |words| == numStates + 1 && |table| == old(|table|)
      ensures numStates <= old(numStates) + |p|
    {
      hide TrieTable;
      var state: nat, n: nat := WalkStates(p, done);
      WalkedTrie(done, p[..n], words, table);
      while n < |p|
        invariant n <= |p| && state < |words| <= |table| && words[state] == p[..n]
        invariant TrieTable(done, p[..n], words, table) && Shape(table)
        invariant n < |p| ==> table[state].next[p[n]] == FAIL_STATE
        invariant |words| == numStates + 1 && |table| == old(|table|) && DepthsOk()
        invariant numStates + |p| - n < |table|
        invariant numStates <= old(numStates) + n
      {
        NewState(state, p[n], done, p[..n]);
        assert p[..n + 1] == p[..n] + [p[n]];
        state := numStates;
        n := n + 1;
      }
      assert p[..n] == p;
      AcceptPattern(done, p, words, table, state);
      table := table[state := table[state].(matches := [p] + table[state].matches)];
    }

    /** A fresh state as the child of `state` on c. */
    method NewState(state: nat, c: Byte, ghost done: seq<Pattern>, ghost extra: seq<Byte>)
      requires TrieTable(done, extra, words, table) && Shape(table)
      requires |words| == numStates + 1 < |table| && DepthsOk()
      requires state < |words| && words[state] == extra && table[state].next[c] == FAIL_STATE
      modifies `numStates, `table, `dept, `words
      ensures TrieTable(done, extra + [c], words, table) && Shape(table) && DepthsOk()
      ensures numStates == old(numStates) + 1 && |words| == numStates + 1 && |table| == old(|table|)
      ensures words[numStates] == extra + [c]
      ensures forall d: Byte :: table[numStates].next[d] == FAIL_STATE
    {
      ExtendTrie(done, extra, words, table, state, c);
      BlankState(done, extra, words, table);
      hide TrieTable, Shape, IsBlank;
      numStates := numStates + 1;
      table := SetNext(table, state, c, numStates);
      dept := dept[numStates := dept[state] + 1];
      words := words + [extra + [c]];
    }

    /** Follows failure links, starting at that of r, to the first state that reads i. */
    method FindFailure(r: nat, i: Byte, s: nat, ghost todo: set<nat>, ghost found: set<nat>, ghost queue: seq<nat>) returns (next: int)
      requires Bfs(patterns, words, table, todo, found, r, i) && QueueOk(words, todo, found, queue, r)
      requires Child(words, r, i, s) && words[r] != []
      ensures 0 <= next < |words| && next in found && next != s
      ensures words[next] == FailWord(patterns, words[s])
    {
      hide InTrie, LongestSuffix, Matches, Own, Numbering;
      assert Linked(patterns, words, table, found, r);
      FailStep(patterns, words[r], i);
      var fs := table[r].fail;
      next := table[fs].next[i];
      while next == FAIL_STATE
        invariant 0 <= fs < |words| && fs in found && next == table[fs].next[i]
        invariant LongestSuffix(patterns, words[fs] + [i]) == FailWord(patterns, words[s])
        decreases |words[fs]|
      {
        FollowFailure(patterns, words, table, todo, found, r, i, fs);
        fs := table[fs].fail;
        next := table[fs].next[i];
      }
      EdgeTarget(patterns, words, table, todo, found, r, i, fs);
      ShallowDone(patterns, words, table, todo, found, queue, r, i, next);
    }

    /** Pushes a copy of each entry of the list of `from` onto the list of s. */
    method CopyMatches(s: nat, from: nat)
      requires s < |table| && from < |table| && s != from
      modifies `table
      ensures |table| == |old(table)|
      ensures table == old(table)[s := old(table)[s].(matches := table[s].matches)]
      ensures multiset(table[s].matches) == multiset(old(table[s].matches)) + multiset(old(table[from].matches))
    {
      var rest := table[from].matches;
      while rest != []
        invariant |table| == |old(table)|
        invariant table == old(table)[s := old(table)[s].(matches := table[s].matches)]
        invariant multiset(table[s].matches) + multiset(rest) ==
                  multiset(old(table[s].matches)) + multiset(old(table[from].matches))
      {
        assert rest == [rest[0]] + rest[1..];
        table := table[s := table[s].(matches := [rest[0]] + table[s].matches)];
        rest := rest[1..];
      }
    }

    /** The first loop: a child of the root is queued and fails to the root; an edge back
        to the root is no child. */
    method VisitRootByte(i: Byte, queue: seq<nat>, ghost todo: set<nat>, ghost found: set<nat>)
      returns (queue': seq<nat>, ghost found': set<nat>)
      requires Bfs(patterns, words, table, todo, found, 0, i) && QueueOk(words, todo, found, queue, 0)
      modifies `table
      ensures |table| == |old(table)|
      ensures Bfs(patterns, words, table, todo, found', 0, i + 1) && QueueOk(words, todo, found', queue', 0)
    {
      hide InTrie, LongestSuffix, Matches, Own, Numbering, QueueOk;
      queue', found' := queue, found;
      var s := table[0].next[i];
      if s != 0 {
        RootEdge(patterns, words, table, todo, found, i);
        ChildIsNew(patterns, words, table, todo, found, 0, i);
        RootOnly(patterns, words, 0);
        FailOfLetter(patterns, words, i, s);
        InheritedMatches(patterns, words[s]);
        ChildStep(patterns, words, table, todo, found, 0, i, s, 0, table[s].matches);
        Enqueue(patterns, words, table, todo, found, queue, 0, i, s);
        queue', found' := queue + [s], found + {s};
        table := table[s := table[s].(fail := 0)];
      } else {
        SkipRoot(patterns, words, table, todo, found, i);
      }
    }

    /** One byte of a dequeued row: a child is queued, linked and given the failure state's
        list; a missing edge is filled in from the failure row. */
    method VisitByte(r: nat, i: Byte, queue: seq<nat>, ghost todo: set<nat>, ghost found: set<nat>)
      returns (queue': seq<nat>, ghost found': set<nat>)
      requires Bfs(patterns, words, table, todo, found, r, i) && QueueOk(words, todo, found, queue, r)
      requires r != 0
      modifies `table
      ensures |table| == |old(table)|
      ensures Bfs(patterns, words, table, todo, found', r, i + 1) && QueueOk(words, todo, found', queue', r)
    {
      PassRow(patterns, words, table, todo, found, r, i);
      hide *;
      queue', found' := queue, found;
      var s := table[r].next[i];
      if s != FAIL_STATE {
        ChildIsNew(patterns, words, table, todo, found, r, i);
        Enqueue(patterns, words, table, todo, found, queue, r, i, s);
        queue' := queue + [s];
        LinkChild(r, i, s, todo, found, queue);
        found' := found + {s};
      } else {
        FillMissing(r, i, todo, found, queue);
      }
    }

    method FillMissing(r: nat, i: Byte, ghost todo: set<nat>, ghost found: set<nat>, ghost queue: seq<nat>)
      requires Bfs(patterns, words, table, todo, found, r, i) && QueueOk(words, todo, found, queue, r)
      requires words[r] != [] && r != 0 && table[r].next[i] == FAIL_STATE
      modifies `table
      ensures |table| == |old(table)|
      ensures Bfs(patterns, words, table, todo, found, r, i + 1)
    {
      FillEdge(patterns, words, table, todo, found, queue, r, i);
      FillStep(patterns, words, table, todo, found, r, i, table[table[r].fail].next[i]);
      hide Bfs, QueueOk, DoneEdge;
      table := SetNext(table, r, i, table[table[r].fail].next[i]);
    }

    method LinkChild(r: nat, i: Byte, s: nat, ghost todo: set<nat>, ghost found: set<nat>, ghost queue: seq<nat>)
      requires Bfs(patterns, words, table, todo, found, r, i) && QueueOk(words, todo, found, queue, r)
      requires Child(words, r, i, s) && table[r].next[i] == s && s !in found && words[r] != []
      modifies `table
      ensures |table| == |old(table)|
      ensures Bfs(patterns, words, table, todo, found + {s}, r, i + 1)
    {
      hide InTrie, LongestSuffix, Matches, Own, Numbering, QueueOk;
      ghost var t0 := table;
      var next := FindFailure(r, i, s, todo, found, queue);
      assert Linked(patterns, words, table, found, next);
      InheritedMatches(patterns, words[s]);
      table := table[s := table[s].(fail := next)];
      CopyMatches(s, next);
      assert table == t0[s := Row(t0[s].next, next, table[s].matches)];
      assert multiset(t0[s].matches) == Own(patterns, words[s]);
      ChildStep(patterns, words, t0, todo, found, r, i, s, next, table[s].matches);
    }

    method VisitRow(r: nat, queue: seq<nat>, ghost todo: set<nat>, ghost found: set<nat>)
      returns (queue': seq<nat>, ghost found': set<nat>)
      requires Bfs(patterns, words, table, todo, found, r, 0) && QueueOk(words, todo, found, queue, r)
      modifies `table
      ensures |table| == |old(table)|
      ensures Bfs(patterns, words, table, todo, found', r, ALPHABET_SIZE) && QueueOk(words, todo, found', queue', r)
    {
      hide Bfs, QueueOk;
      queue', found' := queue, found;
      for i := 0 to ALPHABET_SIZE
        invariant |table| == |old(table)|
        invariant Bfs(patterns, words, table, todo, found', r, i) && QueueOk(words, todo, found', queue', r)
      {
        if r == 0 {
          queue', found' := VisitRootByte(i, queue', todo, found');
        } else {
          queue', found' := VisitByte(r, i, queue', todo, found');
        }
      }
    }

    /** The breadth-first pass over all rows. */
    method BuildDfa(ghost all: set<nat>)
      requires Bfs(patterns, words, table, all, {0}, 0, 0)
      modifies `table
      ensures |table| == |old(table)|
      ensures Compiled(patterns, words, table)
    {
      hide Bfs, Compiled;
      ghost var todo, found: set<nat> := all, {0};
      ghost var r: nat := 0;
      QueueStart(patterns, words, table, all);
      var queue: seq<nat>;
      queue, found := VisitRow(0, [], todo, found);
      while queue != []
        invariant |table| == |old(table)|
        invariant Bfs(patterns, words, table, todo, found, r, ALPHABET_SIZE) && QueueOk(words, todo, found, queue, r)
        decreases todo
      {
        NextRow(patterns, words, table, todo, found, queue, r);
        RowPending(patterns, words, table, todo, found, r);
        todo := todo - {r};
        r := queue[0];
        queue, found := VisitRow(queue[0], queue[1..], todo, found);
      }
      AllVisited(patterns, words, table, todo, found, r);
    }

    /** Compiles the list: sizes the table, inserts every pattern, closes the root row and
        runs the pass.  The table has room for every state (numStates < maxStates). */
    method Compile()
      modifies `maxStates, `numStates, `table, `dept, `words
      ensures AnswersFor(patterns) && DepthsOk()
      ensures maxStates == 1 + TotalLength(patterns)
    {
      hide Compiled;
      maxStates := 1;
      for k := 0 to |patterns|
        invariant maxStates == 1 + TotalLength(patterns[..k])
      {
        assert patterns[..k + 1][..k] == patterns[..k];
        maxStates := maxStates + |patterns[k]|;
      }
      assert patterns[..|patterns|] == patterns;
      InsertAll();
      ghost var trie := table;
      CloseRoot();
      ghost var all := AllStates(|words|);
      StartPass(patterns, words, trie, table, all);
      BuildDfa(all);
    }

    /** Fills a blank table of maxStates rows with all patterns, in list order. */
    method InsertAll()
      requires maxStates == 1 + TotalLength(patterns)
      modifies `numStates, `table, `dept, `words
      ensures TrieTable(patterns, [], words, table) && DepthsOk()
      ensures |words| == numStates + 1 && numStates < |table| == maxStates
    {
      hide TrieTable;
      table := seq(maxStates, s => Row(seq(ALPHABET_SIZE, i => FAIL_STATE), 0, []));
      dept := seq(maxStates, s => 0);
      numStates := 0;
      words := [[]];
      EmptyTrie(table);
      for k := 0 to |patterns|
        invariant TrieTable(patterns[..k], [], words, table)
        invariant |words| == numStates + 1 && |table| == maxStates && DepthsOk()
        invariant numStates <= TotalLength(patterns[..k])
      {
        TotalLengthMonotone(patterns, k);
        assert patterns[..k + 1] == patterns[..k] + [patterns[k]];
        assert patterns[..k + 1][..k] == patterns[..k];
        AddPatternStates(patterns[k], patterns[..k]);
      }
      assert patterns[..|patterns|] == patterns;
    }

    /** Missing edges of the root lead back to the root. */
    method CloseRoot()
      requires TrieTable(patterns, [], words, table)
      modifies `table
      ensures |table| == |old(table)| && Shape(table)
      ensures forall c: Byte :: table[0].next[c] == if old(table)[0].next[c] == FAIL_STATE then 0 else old(table)[0].next[c]
      ensures table == old(table)[0 := old(table)[0].(next := table[0].next)]
    {
      RootWord(patterns, [], words);
      hide Numbering;
      for i := 0 to ALPHABET_SIZE
        invariant 1 <= |table| == |old(table)| && Shape(table)
        invariant table == old(table)[0 := old(table)[0].(next := table[0].next)]
        invariant forall c: Byte :: table[0].next[c] == (if c < i && old(table)[0].next[c] == FAIL_STATE then 0 else old(table)[0].next[c])
      {
        if table[0].next[i] == FAIL_STATE {
          table := SetNext(table, 0, i, 0);
        }
      }
    }

    /** Counts the hits in a text. */
    method Search(text: seq<Byte>) returns (nfound: nat)
      requires exists list :: AnswersFor(list)
      ensures nfound == |AllHits(table, text)|
    {
      ghost var list :| AnswersFor(list);
      nfound := 0;
      var state := 0;
      for i := 0 to |text|
        invariant state == RunTo(table, text[..i]) && 0 <= state < |words|
        invariant nfound == |AllHits(table, text[..i])|
      {
        StepRun(list, words, table, text, i);
        state := table[state].next[text[i]];
        var rest := table[state].matches;
        while rest != []
          invariant nfound + |rest| == |AllHits(table, text[..i + 1])|
        {
          nfound := nfound + 1;
          rest := rest[1..];
        }
      }
      assert text[..|text|] == text;
    }

    /** Stores the start offset of every hit; the caller provides room for all of them. */
    method SearchOffset(text: seq<Byte>, offsets: array<int>) returns (nfound: nat)
      requires exists list :: AnswersFor(list)
      requires |AllHits(table, text)| <= offsets.Length
      modifies offsets
      ensures nfound == |AllHits(table, text)|
      ensures forall k :: 0 <= k < nfound ==> offsets[k] == AllHits(table, text)[k].end - |AllHits(table, text)[k].pattern|
      ensures forall k :: nfound <= k < offsets.Length ==> offsets[k] == old(offsets[k])
    {
      hide Numbering, InTrie, LongestSuffix, Matches, DoneEdge, RunTo, AllHits, Compiled;
      ghost var list :| AnswersFor(list);
      ghost var hits := AllHits(table, text);
      NothingRead(list, words, table, text);
      nfound := 0;
      var state := 0;
      for i := 0 to |text|
        invariant state == RunTo(table, text[..i]) && 0 <= state < |words|
        invariant nfound == |AllHits(table, text[..i])|
        invariant nfound <= |hits| && forall k :: 0 <= k < nfound ==> offsets[k] == hits[k].end - |hits[k].pattern|
        invariant forall k :: nfound <= k < offsets.Length ==> offsets[k] == old(offsets[k])
      {
        StepRun(list, words, table, text, i);
        HitsGrow(table, text, i + 1);
        state := table[state].next[text[i]];
        nfound := StoreOffsets(table[state].matches, i, hits, offsets, nfound);
      }
      assert text[..|text|] == text;
    }

    /** The patterns of one match list, in its order. */
    static method Keywords(matches: seq<Pattern>) returns (keywords: seq<Pattern>)
      ensures keywords == matches
    {
      keywords := [];
      var rest := matches;
      while rest != []
        invariant keywords + rest == matches
      {
        keywords := keywords + [rest[0]];
        rest := rest[1..];
      }
    }

    static method StoreOffsets(matches: seq<Pattern>, i: nat, ghost hits: seq<Hit>, offsets: array<int>, start: nat) returns (nfound: nat)
      requires start + |matches| <= |hits| <= offsets.Length
      requires hits[start..start + |matches|] == HitsOf(matches, i + 1)
      requires forall k :: 0 <= k < start ==> offsets[k] == hits[k].end - |hits[k].pattern|
      modifies offsets
      ensures nfound == start + |matches|
      ensures forall k :: 0 <= k < nfound ==> offsets[k] == hits[k].end - |hits[k].pattern|
      ensures forall k :: nfound <= k < offsets.Length ==> offsets[k] == old(offsets[k])
    {
      nfound := start;
      var rest := matches;
      while rest != []
        invariant start <= nfound && nfound + |rest| == start + |matches| && rest == matches[nfound - start..]
        invariant forall k :: 0 <= k < nfound ==> offsets[k] == hits[k].end - |hits[k].pattern|
        invariant forall k :: nfound <= k < offsets.Length ==> offsets[k] == old(offsets[k])
      {
        assert hits[nfound] == hits[start..start + |matches|][nfound - start];
        var index := i - |rest[0]| + 1;
        offsets[nfound] := index;
        nfound := nfound + 1;
        rest := rest[1..];
      }
    }

    /** Collects the matched keywords in hit order. */
    method SearchKeywords(text: seq<Byte>) returns (keywords: seq<Pattern>)
      requires exists list :: AnswersFor(list)
      ensures |keywords| == |AllHits(table, text)|
      ensures forall k :: 0 <= k < |keywords| ==> keywords[k] == AllHits(table, text)[k].pattern
    {
      hide Numbering, InTrie, LongestSuffix, Matches, DoneEdge;
      ghost var list :| AnswersFor(list);
      keywords := [];
      var state := 0;
      for i := 0 to |text|
        invariant state == RunTo(table, text[..i]) && 0 <= state < |words|
        invariant |keywords| == |AllHits(table, text[..i])|
        invariant forall k :: 0 <= k < |keywords| ==> keywords[k] == AllHits(table, text[..i])[k].pattern
      {
        StepRun(list, words, table, text, i);
        hide RunTo, AllHits, Compiled;
        state := table[state].next[text[i]];
        var more := Keywords(table[state].matches);
        keywords := keywords + more;
      }
      assert text[..|text|] == text;
    }
  }

  lemma QueueStart(patterns: seq<Pattern>, words: Words, t: Table, all: set<nat>)
    requires Bfs(patterns, words, t, all, {0}, 0, 0)
    ensures QueueOk(words, all, {0}, [], 0)
  {
  }

  lemma RowPending(patterns: seq<Pattern>, words: Words, t: Table, todo: set<nat>, found: set<nat>, r: nat)
    requires Bfs(patterns, words, t, todo, found, r, ALPHABET_SIZE)
    ensures r in todo
  {
  }

  lemma Enqueue(patterns: seq<Pattern>, words: Words, t: Table, todo: set<nat>, found: set<nat>, queue: seq<nat>, r: nat, i: Byte, s: nat)
    requires Bfs(patterns, words, t, todo, found, r, i) && QueueOk(words, todo, found, queue, r)
    requires Child(words, r, i, s) && s !in found
    ensures QueueOk(words, todo, found + {s}, queue + [s], r)
  {
    hide InTrie, LongestSuffix, Matches, Own, Numbering;
    QueueStep(words, todo, found, queue, r, i, s);
  }

  /** The root row has no missing edge; one that leads back to the root is final at once. */
  lemma {:induction false} RootEdge(patterns: seq<Pattern>, words: Words, t: Table, todo: set<nat>, found: set<nat>, i: Byte)
    requires Bfs(patterns, words, t, todo, found, 0, i)
    ensures t[0].next[i] != FAIL_STATE
  {
    assert EdgeOk(patterns, words, t, todo, 0, i, 0, i);
  }

  lemma {:induction false} SkipRoot(patterns: seq<Pattern>, words: Words, t: Table, todo: set<nat>, found: set<nat>, i: Byte)
    requires Bfs(patterns, words, t, todo, found, 0, i) && t[0].next[i] == 0
    ensures Bfs(patterns, words, t, todo, found, 0, i + 1)
  {
    hide InTrie, LongestSuffix, Matches, Own, Numbering;
    RootOnly(patterns, words, 0);
    assert EdgeOk(patterns, words, t, todo, 0, i, 0, i);
    MissingLetter(patterns, words, i);
    forall u: nat, c: Byte {:trigger EdgeOk(patterns, words, t, todo, 0, i + 1, u, c)} | u < |words|
      ensures EdgeOk(patterns, words, t, todo, 0, i + 1, u, c)
    {
      assert EdgeOk(patterns, words, t, todo, 0, i, u, c);
    }
    forall u: nat, c: Byte, x: nat | Child(words, u, c, x)
      ensures x in found <==> Visited(todo, 0, i + 1, u, c)
    {
      assert x in found <==> Visited(todo, 0, i, u, c);
      assert words[x] in words;
    }
  }

  lemma MissingLetter(patterns: seq<Pattern>, words: Words, c: Byte)
    requires Numbering(patterns, [], words)
    ensures [] + [c] !in words ==> LongestSuffix(patterns, [] + [c]) == []
  {
    assert ([] + [c])[1..] == [];
  }

  lemma FailOfLetter(patterns: seq<Pattern>, words: Words, c: Byte, s: nat)
    requires s < |words| && words[s] == words[0] + [c] && words[0] == []
    ensures FailWord(patterns, words[s]) == [] && |words[s]| == 1
  {
    assert words[s][1..] == [];
  }

  lemma RootOnly(patterns: seq<Pattern>, words: Words, r: nat)
    requires Numbering(patterns, [], words) && r < |words|
    ensures r == 0 <==> words[r] == []
  {
  }

  lemma PassRow(patterns: seq<Pattern>, words: Words, t: Table, todo: set<nat>, found: set<nat>, r: nat, i: nat)
    requires Bfs(patterns, words, t, todo, found, r, i)
    ensures r < |words| <= |t| && |t[r].next| == ALPHABET_SIZE
    ensures r == 0 <==> words[r] == []
  {
    RootOnly(patterns, words, r);
  }

  lemma RootWord(patterns: seq<Pattern>, extra: seq<Byte>, words: Words)
    requires Numbering(patterns, extra, words)
    ensures words != [] && words[0] == []
  {
  }

  lemma InheritedMatches(patterns: seq<Pattern>, w: seq<Byte>)
    ensures |w| >= 2 ==> Matches(patterns, w) == Own(patterns, w) + Matches(patterns, FailWord(patterns, w))
    ensures |w| <= 1 ==> Matches(patterns, w) == Own(patterns, w)
  {
  }

  /** A state that cannot read byte i hands the search to its failure state. */
  lemma {:induction false} FollowFailure(patterns: seq<Pattern>, words: Words, t: Table, todo: set<nat>, found: set<nat>, r: nat, i: Byte, fs: nat)
    requires Bfs(patterns, words, t, todo, found, r, i) && fs in found && t[fs].next[i] == FAIL_STATE
    ensures words[fs] != [] && t[fs].fail in found && |words[t[fs].fail]| < |words[fs]|
    ensures LongestSuffix(patterns, words[t[fs].fail] + [i]) == LongestSuffix(patterns, words[fs] + [i])
  {
    hide InTrie, LongestSuffix, Matches, Own;
    assert EdgeOk(patterns, words, t, todo, r, i, fs, i);
    assert words[fs] != [];
    assert Linked(patterns, words, t, found, fs);
    MissingWord(patterns, words, words[fs] + [i]);
    FailStep(patterns, words[fs], i);
  }

  /** Whether its row is finished or not, an edge that exists leads to the longest suffix. */
  lemma {:induction false} EdgeTarget(patterns: seq<Pattern>, words: Words, t: Table, todo: set<nat>, found: set<nat>, r: nat, i: Byte, fs: nat)
    requires Bfs(patterns, words, t, todo, found, r, i) && fs in found && t[fs].next[i] != FAIL_STATE
    ensures 0 <= t[fs].next[i] < |words|
    ensures words[t[fs].next[i]] == LongestSuffix(patterns, words[fs] + [i])
  {
    hide Matches, Own;
    assert EdgeOk(patterns, words, t, todo, r, i, fs, i);
    MissingWord(patterns, words, words[fs] + [i]);
    if !Visited(todo, r, i, fs, i) {
      assert TrieEdge(words, t, fs, i, if fs == 0 then 0 else FAIL_STATE);
      if words[fs] + [i] !in words {
        assert words[fs] == [];
        assert ([] + [i])[1..] == [];
      }
    }
  }

  ghost function AllStates(n: nat): (all: set<nat>)
    ensures forall s: nat :: s in all <==> s < n
  {
    if n == 0 then {} else AllStates(n - 1) + {n - 1}
  }

  lemma BlankState(patterns: seq<Pattern>, extra: seq<Byte>, words: Words, t: Table)
    requires TrieTable(patterns, extra, words, t) && |words| < |t|
    ensures |t[|words|].next| == ALPHABET_SIZE
    ensures forall d: Byte :: t[|words|].next[d] == FAIL_STATE
  {
    hide Numbering;
    assert IsBlank(t[|words|]);
  }

  lemma EmptyTrie(t: Table)
    requires |t| >= 1 && forall s :: 0 <= s < |t| ==> IsBlank(t[s])
    ensures TrieTable([], [], [[]], t)
  {
    var words: Words := [[]];
    forall s: nat, c: Byte | s < |words|
      ensures TrieEdge(words, t, s, c, FAIL_STATE)
    {
      assert IsBlank(t[s]);
      assert |words[s] + [c]| == 1;
    }
    assert Own([], []) == multiset{};
    assert IsBlank(t[0]);
  }

  /** The trie with a closed root row is the start of the pass. */
  lemma {:induction false} StartPass(patterns: seq<Pattern>, words: Words, t0: Table, t: Table, all: set<nat>)
    requires TrieTable(patterns, [], words, t0) && |t| == |t0| && Shape(t)
    requires forall c: Byte :: t[0].next[c] == if t0[0].next[c] == FAIL_STATE then 0 else t0[0].next[c]
    requires t == t0[0 := t0[0].(next := t[0].next)]
    requires forall s: nat :: s in all <==> s < |words|
    ensures Bfs(patterns, words, t, all, {0}, 0, 0)
  {
    forall s: nat, c: Byte {:trigger EdgeOk(patterns, words, t, all, 0, 0, s, c)} | s < |words|
      ensures EdgeOk(patterns, words, t, all, 0, 0, s, c)
    {
      assert TrieEdge(words, t0, s, c, FAIL_STATE);
    }
    InheritedMatches(patterns, words[0]);
    assert Linked(patterns, words, t, {0}, 0);
  }

  lemma {:induction false} StepRun(patterns: seq<Pattern>, words: Words, t: Table, text: seq<Byte>, i: nat)
    requires Compiled(patterns, words, t) && i < |text|
    ensures 0 <= RunTo(t, text[..i]) < |words| && 0 <= RunTo(t, text[..i + 1]) < |words|
    ensures |words| <= |t| && |t[RunTo(t, text[..i])].next| == ALPHABET_SIZE
    ensures RunTo(t, text[..i + 1]) == t[RunTo(t, text[..i])].next[text[i]]
    ensures AllHits(t, text[..i + 1]) == AllHits(t, text[..i]) + HitsOf(t[RunTo(t, text[..i + 1])].matches, i + 1)
  {
    RunIsLongestSuffix(patterns, words, t, text[..i]);
    RunIsLongestSuffix(patterns, words, t, text[..i + 1]);
    assert text[..i + 1][..i] == text[..i];
  }

  lemma NothingRead(patterns: seq<Pattern>, words: Words, t: Table, text: seq<Byte>)
    requires Compiled(patterns, words, t)
    ensures RunTo(t, text[..0]) == 0 < |words| && AllHits(t, text[..0]) == []
  {
  }

  lemma {:induction false} HitsGrow(t: Table, text: seq<Byte>, i: nat)
    requires i <= |text|
    ensures AllHits(t, text[..i]) <= AllHits(t, text)
  {
    if i < |text| {
      var front := text[..|text| - 1];
      HitsGrow(t, front, i);
      assert front[..i] == text[..i];
    } else {
      assert text[..i] == text;
    }
  }
}
