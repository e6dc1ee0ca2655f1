/** The reference-counted trie of access rules.  A rule is a line of digits, spaces and
    stars; nodes are never freed, a node with no references counts as absent. */
module Trie {
  import opened Common

  type Letter = c: char | '0' <= c <= '9' || c == '*' || c == ' ' witness '0'

  type Rule = seq<Letter>

  const CHILDNUM := 12
  const NO_PATTERN := -1
  const MAX_REF := 32767
  const MAX_ID := 0x7FFF_FFFF

  /** The reference count of a node is a short. */
  type Short = x: int | -MAX_REF - 1 <= x <= MAX_REF

  function C2i(c: Letter): (i: nat)
    ensures i < CHILDNUM
  {
    if c == '*' then 10 else if c == ' ' then 11 else c as int - '0' as int
  }

  lemma C2iInjective(a: Letter, b: Letter)
    requires C2i(a) == C2i(b)
    ensures a == b
  {
  }

  // ---------- What a rule matches ----------

  /** The end of the field that the text starts with. */
  function FieldEnd(text: Rule): (n: nat)
    ensures n <= |text|
  {
    if text == [] || text[0] == ' ' then 0 else 1 + FieldEnd(text[1..])
  }

  /** A letter stands for itself; a star, unless the text is at its end, for the rest of the
      field. */
  predicate Matches(rule: Rule, text: Rule)
    decreases |rule|
  {
    if text == [] then rule == []
    else
      rule != []
      && ((rule[0] == text[0] && Matches(rule[1..], text[1..]))
          || (rule[0] == '*' && Matches(rule[1..], text[FieldEnd(text)..])))
  }

  // ---------- Histories ----------

  datatype Operation = AddUser(rule: Rule) | AddResource(rule: Rule) | Remove(rule: Rule)

  /** The live rules with their pattern ids. */
  type Live = map<Rule, int>

  /** The live rules after a history, and the next ids of both kinds. */
  datatype History = History(live: Live, user: nat, resource: nat)

  function After(ops: seq<Operation>): History {
    if ops == [] then History(map[], 0, 1)
    else
      var h := After(ops[..|ops| - 1]);
      match ops[|ops| - 1]
      case AddUser(r) => History(h.live[r := h.user], h.user + 2, h.resource)
      case AddResource(r) => History(h.live[r := h.resource], h.user, h.resource + 2)
      case Remove(r) => h.(live := h.live - {r})
  }

  /** How many insertions of a history passed through the node of w, less the deletions
      through it that found their rule. */
  function Refs(ops: seq<Operation>, w: Rule): int {
    if ops == [] then 0
    else
      var front, op := ops[..|ops| - 1], ops[|ops| - 1];
      Refs(front, w) + (if w <= op.rule then Change(front, op) else 0)
  }

  function Change(front: seq<Operation>, op: Operation): int {
    if !op.Remove? then 1 else if op.rule in After(front).live then -1 else 0
  }

  /** Every count that the history leaves fits its C type. */
  ghost predicate Fits(ops: seq<Operation>) {
    && After(ops).user <= MAX_ID && After(ops).resource <= MAX_ID
    && forall w :: w != [] ==> Refs(ops, w) <= MAX_REF
  }

  lemma OneMoreOperation(ops: seq<Operation>, op: Operation, w: Rule)
    ensures Refs(ops + [op], w) == Refs(ops, w) + (if w <= op.rule then Change(ops, op) else 0)
    ensures op.Remove? ==> After(ops + [op]).live == After(ops).live - {op.rule}
    ensures op.AddUser? ==> After(ops + [op]).live == After(ops).live[op.rule := After(ops).user]
    ensures op.AddResource? ==> After(ops + [op]).live == After(ops).live[op.rule := After(ops).resource]
  {
    assert (ops + [op])[..|ops|] == ops;
  }

  /** The live rules that pass through the node of w. */
  ghost function Through(live: Live, w: Rule): set<Rule> {
    set r | r in live && w <= r
  }

  /** One more live rule at most. */
  lemma OneMoreRule(a: set<Rule>, p: Rule)
    ensures |a + {p}| <= |a| + 1
  {
    if p in a { assert a + {p} == a; }
  }

  lemma ThroughInserted(live: Live, p: Rule, id: int, w: Rule)
    ensures |Through(live[p := id], w)| <= |Through(live, w)| + (if w <= p then 1 else 0)
  {
    var a, b := Through(live, w), Through(live[p := id], w);
    if w <= p {
      assert b == a + {p};
      hide Through;
      OneMoreRule(a, p);
    } else {
      assert b == a;
    }
  }

  lemma ThroughDeleted(live: Live, p: Rule, w: Rule)
    requires p in live
    ensures |Through(live - {p}, w)| == |Through(live, w)| - (if w <= p then 1 else 0)
  {
    var a, b := Through(live, w), Through(live - {p}, w);
    if w <= p {
      assert a == b + {p} && p !in b;
    } else {
      assert b == a;
    }
  }

  /** A node has at least as many references as there are live rules through it. */
  lemma {:induction false} RefsCover(ops: seq<Operation>, w: Rule)
    ensures |Through(After(ops).live, w)| <= Refs(ops, w)
  {
    if ops != [] {
      var front, op := ops[..|ops| - 1], ops[|ops| - 1];
      RefsCover(front, w);
      hide Through;
      var live := After(front).live;
      if !op.Remove? {
        ThroughInserted(live, op.rule, After(ops).live[op.rule], w);
      } else if op.rule in live {
        ThroughDeleted(live, op.rule, w);
      } else {
        assert live - {op.rule} == live;
      }
    } else {
      assert Through(map[], w) == {};
    }
  }

  // ---------- Nodes ----------

  /** child[i] is the number of a node, or None. */
  datatype Node = Node(refs: Short, pattern: int, child: seq<Option<nat>>)

  type Pool = seq<Node>

  function NewNode(): Node { Node(1, NO_PATTERN, seq(CHILDNUM, i => None)) }

  /** Node i stands for words[i]; its children, all behind it, for the words one longer. */
  ghost predicate NodeOk(pool: Pool, words: seq<Rule>, live: Live, i: nat)
    requires i < |words| == |pool|
  {
    var node, w := pool[i], words[i];
    && |node.child| == CHILDNUM
    && (forall c: Letter :: ChildOk(pool, words, i, c))
    && node.pattern == (if w in live then live[w] else NO_PATTERN)
  }

  ghost predicate ChildOk(pool: Pool, words: seq<Rule>, i: nat, c: Letter)
    requires i < |words| == |pool| && |pool[i].child| == CHILDNUM
  {
    match pool[i].child[C2i(c)]
    case None => words[i] + [c] !in words
    case Some(j) => i < j < |words| && words[j] == words[i] + [c]
  }

  ghost predicate Ids(live: Live) {
    forall r :: r in live ==> live[r] >= 0
  }

  /** Every node but the root has exactly the references that the history h leaves it, and
      delta more on the way along `path`. */
  ghost predicate RefsOk(pool: Pool, words: seq<Rule>, h: seq<Operation>, path: Rule, delta: int) {
    && |pool| == |words|
    && (forall i: nat :: 0 < i < |words| ==> RefOk(pool[i], words[i], h, path, delta))
    && (forall w :: w !in words ==> Refs(h, w) == 0)
  }

  ghost predicate RefOk(node: Node, w: Rule, h: seq<Operation>, path: Rule, delta: int) {
    node.refs == Refs(h, w) + (if w <= path then delta else 0)
  }

  ghost predicate TrieOk(pool: Pool, words: seq<Rule>, live: Live, h: seq<Operation>) {
    Structure(pool, words, live) && RefsOk(pool, words, h, [], 0) && live == After(h).live
  }

  ghost predicate Structure(pool: Pool, words: seq<Rule>, live: Live) {
    && |pool| == |words| > 0 && words[0] == []
    && (forall i: nat, j: nat :: i < j < |words| ==> words[i] != words[j])
    && (forall i: nat :: i < |words| ==> NodeOk(pool, words, live, i))
    && (forall r :: r in live ==> r in words)
    && (forall w :: w in words && w != [] ==> w[..|w| - 1] in words)
    && Ids(live)
  }

  /** is_null, for a child pointer. */
  predicate IsNull(pool: Pool, p: Option<nat>)
    requires p.Some? ==> p.value < |pool|
  {
    p == None || pool[p.value].refs == 0
  }

  // ---------- Searching ----------

  /** Some live rule below the node matches the rest of the text. */
  ghost predicate Below(live: Live, w: Rule, text: Rule) {
    exists r :: Hit(live, w, text, r)
  }

  ghost predicate Hit(live: Live, w: Rule, text: Rule, r: Rule) {
    r in live && w <= r && Matches(r[|w|..], text)
  }

  /** A node without references has no live rule below it. */
  lemma NoRefsNoRules(pool: Pool, words: seq<Rule>, live: Live, h: seq<Operation>, j: nat, text: Rule)
    requires TrieOk(pool, words, live, h) && 0 < j < |words| && pool[j].refs == 0
    ensures !Below(live, words[j], text)
  {
    NotRoot(pool, words, live, j);
    assert RefOk(pool[j], words[j], h, [], 0);
    RefsCover(h, words[j]);
    if Below(live, words[j], text) {
      var r :| Hit(live, words[j], text, r);
      OneThrough(live, words[j], r);
    }
  }

  lemma OneThrough(live: Live, w: Rule, r: Rule)
    requires r in live && w <= r
    ensures |Through(live, w)| >= 1
  {
    assert r in Through(live, w);
  }

  lemma {:induction false} PrefixIsWord(words: seq<Rule>, w: Rule, n: nat)
    requires w in words && n <= |w| && forall w :: w in words && w != [] ==> w[..|w| - 1] in words
    ensures w[..n] in words
    decreases |w|
  {
    if n < |w| {
      PrefixIsWord(words, w[..|w| - 1], n);
      assert w[..|w| - 1][..n] == w[..n];
    } else {
      assert w[..n] == w;
    }
  }

  /** Below a node and before the end of the text: through the child of the next letter, or
      through the star child behind the field. */
  lemma {:induction false} BelowByChild(live: Live, w: Rule, text: Rule)
    requires text != []
    ensures Below(live, w, text) <==>
            Below(live, w + [text[0]], text[1..]) || Below(live, w + ['*'], text[FieldEnd(text)..])
  {
    if Below(live, w, text) {
      var r :| Hit(live, w, text, r);
      var rest := r[|w|..];
      assert rest[1..] == r[|w| + 1..];
      if rest[0] == text[0] && Matches(rest[1..], text[1..]) {
        assert w + [text[0]] <= r;
        assert Hit(live, w + [text[0]], text[1..], r);
      } else {
        assert w + ['*'] <= r;
        assert Hit(live, w + ['*'], text[FieldEnd(text)..], r);
      }
    }
    if Below(live, w + [text[0]], text[1..]) {
      var r :| Hit(live, w + [text[0]], text[1..], r);
      assert r[|w|..][1..] == r[|w| + 1..];
      assert Hit(live, w, text, r);
    }
    if Below(live, w + ['*'], text[FieldEnd(text)..]) {
      var r :| Hit(live, w + ['*'], text[FieldEnd(text)..], r);
      assert r[|w|..][1..] == r[|w| + 1..];
      assert Hit(live, w, text, r);
    }
  }

  // ---------- Inserting and deleting ----------

  /** At the end of the text only the rule of the node itself matches. */
  lemma BelowAtEnd(live: Live, w: Rule)
    ensures Below(live, w, []) <==> w in live
    ensures forall r :: Hit(live, w, [], r) ==> r == w
  {
    if w in live { assert Hit(live, w, [], w); }
    forall r | Hit(live, w, [], r)
      ensures r == w
    {
      assert r == w + r[|w|..];
    }
  }

  /** The search below a node, with the id it leaves behind. */
  ghost predicate Searched(live: Live, w: Rule, text: Rule, find: bool, find': bool, id: int, id': int) {
    && (find' <==> find || Below(live, w, text))
    && (if Below(live, w, text) then exists r :: Hit(live, w, text, r) && id' == live[r] else id' == id)
  }

  lemma {:induction false} SearchedBoth(live: Live, w: Rule, text: Rule, f0: bool, f1: bool, f2: bool, id0: int, id1: int, id2: int)
    requires text != []
    requires Searched(live, w + [text[0]], text[1..], f0, f1, id0, id1)
    requires Searched(live, w + ['*'], text[FieldEnd(text)..], f1, f2, id1, id2)
    ensures Searched(live, w, text, f0, f2, id0, id2)
  {
    BelowByChild(live, w, text);
    if Below(live, w + ['*'], text[FieldEnd(text)..]) {
      var r :| Hit(live, w + ['*'], text[FieldEnd(text)..], r) && id2 == live[r];
      assert r[|w|..][1..] == r[|w| + 1..];
      assert Hit(live, w, text, r);
    } else if Below(live, w + [text[0]], text[1..]) {
      var r :| Hit(live, w + [text[0]], text[1..], r) && id1 == live[r];
      assert r[|w|..][1..] == r[|w| + 1..];
      assert Hit(live, w, text, r);
    }
  }

  /** A child pointer that counts as absent has nothing below it. */
  lemma AbsentChild(pool: Pool, words: seq<Rule>, live: Live, h: seq<Operation>, i: nat, c: Letter, text: Rule)
    requires TrieOk(pool, words, live, h) && i < |words|
    ensures NodeOk(pool, words, live, i)
    ensures var p := pool[i].child[C2i(c)];
            (p.Some? ==> i < p.value < |pool| && words[p.value] == words[i] + [c])
            && (IsNull(pool, p) ==> !Below(live, words[i] + [c], text))
  {
    assert NodeOk(pool, words, live, i);
    assert ChildOk(pool, words, i, c);
    var p := pool[i].child[C2i(c)];
    if p.Some? && pool[p.value].refs == 0 {
      NoRefsNoRules(pool, words, live, h, p.value, text);
    } else if p == None && Below(live, words[i] + [c], text) {
      var r :| Hit(live, words[i] + [c], text, r);
      PrefixOfLive(pool, words, live, r, words[i] + [c]);
    }
  }

  lemma PrefixOfLive(pool: Pool, words: seq<Rule>, live: Live, r: Rule, w: Rule)
    requires Structure(pool, words, live) && r in live && w <= r
    ensures w in words
  {
    PrefixIsWord(words, r, |w|);
    assert r[..|w|] == w;
  }

  lemma {:induction false} NothingBelow(live: Live, w: Rule, text: Rule, id: int, find: bool)
    requires !Below(live, w, text)
    ensures Searched(live, w, text, find, find, id, id)
  {
  }

  lemma FreshWord(words: seq<Rule>, w: Rule, d: Letter)
    requires w !in words && forall v :: v in words && v != [] ==> v[..|v| - 1] in words
    ensures w + [d] !in words
  {
    assert (w + [d])[..|w|] == w;
  }

  /** A missing child is added, with one reference. */
  lemma {:induction false} NewChild(pool: Pool, words: seq<Rule>, live: Live, t: nat, c: Letter)
    requires Structure(pool, words, live) && t < |pool| && NodeOk(pool, words, live, t) && pool[t].child[C2i(c)] == None
    ensures Structure(pool[t := pool[t].(child := pool[t].child[C2i(c) := Some(|pool|)])] + [NewNode()], words + [words[t] + [c]], live)
  {
    hide ChildOk;
    var w' := words[t] + [c];
    var words' := words + [w'];
    var pool' := pool[t := pool[t].(child := pool[t].child[C2i(c) := Some(|pool|)])] + [NewNode()];
    NewWord(pool, words, live, t, c);
    forall i: nat | i < |pool'|
      ensures NodeOk(pool', words', live, i)
    {
      if i < |pool| { assert NodeOk(pool, words, live, i); }
      NewChildren(pool, words, live, t, c, i);
    }
    assert w'[..|w'| - 1] == words[t];
  }

  lemma NewWord(pool: Pool, words: seq<Rule>, live: Live, t: nat, c: Letter)
    requires Structure(pool, words, live) && t < |pool| && |pool[t].child| == CHILDNUM && pool[t].child[C2i(c)] == None
    ensures words[t] + [c] !in words && words[t] + [c] !in live
  {
    assert NodeOk(pool, words, live, t);
    assert ChildOk(pool, words, t, c);
  }

  lemma {:induction false} NewChildren(pool: Pool, words: seq<Rule>, live: Live, t: nat, c: Letter, i: nat)
    requires Structure(pool, words, live) && t < |pool| && NodeOk(pool, words, live, t) && pool[t].child[C2i(c)] == None && i <= |pool|
    ensures var pool' := pool[t := pool[t].(child := pool[t].child[C2i(c) := Some(|pool|)])] + [NewNode()];
            |pool'[i].child| == CHILDNUM && forall d: Letter :: ChildOk(pool', words + [words[t] + [c]], i, d)
  {
    var w' := words[t] + [c];
    var words' := words + [w'];
    var pool' := pool[t := pool[t].(child := pool[t].child[C2i(c) := Some(|pool|)])] + [NewNode()];
    NewWord(pool, words, live, t, c);
    if i < |pool| { assert NodeOk(pool, words, live, i); }
    forall d: Letter
      ensures ChildOk(pool', words', i, d)
    {
      if i < |pool| {
        assert ChildOk(pool, words, i, d);
        SameChild(words[i], d, words[t], c);
        if C2i(d) == C2i(c) { C2iInjective(d, c); }
      } else {
        FreshWord(words, w', d);
        assert |w' + [d]| != |w'|;
      }
    }
  }

  lemma SameChild(u: Rule, d: Letter, w: Rule, c: Letter)
    ensures u + [d] == w + [c] <==> u == w && d == c
  {
    if u + [d] == w + [c] {
      assert u == (u + [d])[..|u|] == (w + [c])[..|w|] == w;
      assert d == (u + [d])[|u|] == c;
    }
  }

  /** The reference counts after one step along the path. */
  lemma {:induction false} StepRefs(pool: Pool, words: seq<Rule>, h: seq<Operation>, path: Rule, c: Letter, j: nat, delta: int, pool': Pool, words': seq<Rule>)
    requires RefsOk(pool, words, h, path, delta) && words <= words' && |words'| == |pool'|
    requires 0 < j < |words'| && words'[j] == path + [c]
    requires forall i: nat :: i < |words'| && words'[i] == path + [c] ==> i == j
    requires forall i: nat :: 0 < i < |words| && i != j ==> pool'[i].refs == pool[i].refs
    requires |words'| <= |words| + 1 && (|words'| > |words| ==> j == |words|)
    requires RefOk(pool'[j], words'[j], h, words'[j], delta)
    ensures RefsOk(pool', words', h, path + [c], delta)
  {
    forall i: nat | 0 < i < |words'|
      ensures RefOk(pool'[i], words'[i], h, path + [c], delta)
    {
      if i != j {
        assert RefOk(pool[i], words[i], h, path, delta);
        assert words'[i] <= path + [c] <==> words'[i] <= path by { PrefixOfStep(words'[i], path, c); }
      }
    }
  }

  lemma PrefixOfStep(w: Rule, path: Rule, c: Letter)
    ensures w <= path + [c] <==> w <= path || w == path + [c]
  {
    if w <= path + [c] && w != path + [c] {
      assert w == (path + [c])[..|w|] == path[..|w|];
    }
  }

  lemma NextLetter(pattern: Rule, i: nat)
    requires i < |pattern|
    ensures pattern[..i + 1] == pattern[..i] + [pattern[i]] <= pattern
  {
  }

  /** Changing a node's pattern id changes the set of live rules. */
  lemma {:induction false} PatternSet(pool: Pool, words: seq<Rule>, live: Live, t: nat, id: int, live': Live)
    requires Structure(pool, words, live) && t < |words|
    requires live' == (if id >= 0 then live[words[t] := id] else live - {words[t]}) && (id >= 0 || id == NO_PATTERN)
    ensures Structure(pool[t := pool[t].(pattern := id)], words, live')
  {
    hide ChildOk;
    var pool' := pool[t := pool[t].(pattern := id)];
    forall i: nat | i < |pool'|
      ensures NodeOk(pool', words, live', i)
    {
      assert NodeOk(pool, words, live, i);
      SameChildren(pool, words, live, t, id, i, pool');
      if words[i] == words[t] { assert i == t; }
    }
  }

  lemma SameChildren(pool: Pool, words: seq<Rule>, live: Live, t: nat, id: int, i: nat, pool': Pool)
    requires |words| == |pool| && t < |pool| && i < |pool| && NodeOk(pool, words, live, i)
    requires pool' == pool[t := pool[t].(pattern := id)]
    ensures forall c: Letter :: ChildOk(pool', words, i, c)
  {
    forall c: Letter
      ensures ChildOk(pool', words, i, c)
    {
      assert ChildOk(pool, words, i, c);
    }
  }

  /** The rule has been walked along and gets its id. */
  lemma {:induction false} SetPattern(pool: Pool, words: seq<Rule>, live: Live, h: seq<Operation>, t: nat, id: nat, op: Operation)
    requires Structure(pool, words, live) && t < |words| && RefsOk(pool, words, h, words[t], 1) && live == After(h).live
    requires op.rule == words[t] && !op.Remove? && id == if op.AddUser? then After(h).user else After(h).resource
    ensures TrieOk(pool[t := pool[t].(pattern := id)], words, live[words[t] := id], h + [op])
  {
    hide Structure, After, Refs;
    OneMoreOperation(h, op, []);
    PatternSet(pool, words, live, t, id, live[words[t] := id]);
    Settled(pool, words, live, h, t, id, op);
  }

  /** The references changed along the way are what the operation does to the counts. */
  lemma {:induction false} Settled(pool: Pool, words: seq<Rule>, live: Live, h: seq<Operation>, t: nat, id: int, op: Operation)
    requires Structure(pool, words, live) && t < |words| && op.rule == words[t] && RefsOk(pool, words, h, words[t], Change(h, op))
    ensures RefsOk(pool[t := pool[t].(pattern := id)], words, h + [op], [], 0)
  {
    hide Structure, Refs, Change;
    var pool' := pool[t := pool[t].(pattern := id)];
    forall i: nat | 0 < i < |words|
      ensures RefOk(pool'[i], words[i], h + [op], [], 0)
    {
      assert RefOk(pool[i], words[i], h, words[t], Change(h, op));
      OneMoreOperation(h, op, words[i]);
      NotRoot(pool, words, live, i);
    }
    forall w | w !in words
      ensures Refs(h + [op], w) == 0
    {
      OneMoreOperation(h, op, w);
      if w <= op.rule { PrefixOfWord(pool, words, live, t, w); }
    }
  }

  lemma PrefixOfWord(pool: Pool, words: seq<Rule>, live: Live, t: nat, w: Rule)
    requires Structure(pool, words, live) && t < |words| && w <= words[t]
    ensures w in words
  {
    PrefixIsWord(words, words[t], |w|);
    assert words[t][..|w|] == w;
  }

  lemma NotRoot(pool: Pool, words: seq<Rule>, live: Live, i: nat)
    requires Structure(pool, words, live) && 0 < i < |words|
    ensures words[i] != []
  {
  }

  /** The references have been taken back and the rule loses its id. */
  lemma {:induction false} ClearPattern(pool: Pool, words: seq<Rule>, live: Live, h: seq<Operation>, t: nat)
    requires Structure(pool, words, live) && t < |words| && words[t] in live && live == After(h).live
    requires RefsOk(pool, words, h, words[t], -1)
    ensures TrieOk(pool[t := pool[t].(pattern := NO_PATTERN)], words, live - {words[t]}, h + [Remove(words[t])])
  {
    var op := Remove(words[t]);
    assert Change(h, op) == -1;
    hide Structure, After, Refs, Change;
    OneMoreOperation(h, op, []);
    PatternSet(pool, words, live, t, NO_PATTERN, live - {words[t]});
    Settled(pool, words, live, h, t, NO_PATTERN, op);
  }

  /** Removing a rule that is not live changes nothing. */
  lemma {:induction false} IdleRemove(pool: Pool, words: seq<Rule>, live: Live, h: seq<Operation>, pattern: Rule)
    requires TrieOk(pool, words, live, h) && pattern !in live
    ensures TrieOk(pool, words, live - {pattern}, h + [Remove(pattern)])
  {
    var op := Remove(pattern);
    assert Change(h, op) == 0;
    assert live - {pattern} == live;
    hide Structure, After, Refs, Change;
    OneMoreOperation(h, op, []);
    forall i: nat | 0 < i < |words|
      ensures RefOk(pool[i], words[i], h + [op], [], 0)
    {
      assert RefOk(pool[i], words[i], h, [], 0);
      OneMoreOperation(h, op, words[i]);
    }
    forall w | w !in words
      ensures Refs(h + [op], w) == 0
    {
      OneMoreOperation(h, op, w);
    }
  }

  class Tree {
    var pool: Pool
    var nextUserId: nat
    var nextResourceId: nat
    ghost var words: seq<Rule>
    ghost var live: Live
    ghost var history: seq<Operation>

    constructor ()
      ensures Valid() && live == map[] && history == []
    {
      pool, words, live, history := [NewNode()], [[]], map[], [];
      nextUserId, nextResourceId := 0, 1;
    }

    /** The pool is a trie of the live rules; the references of every node and both next ids
        are what the history of operations makes them, and fit their types. */
    ghost predicate Valid()
      reads this
    {
      && TrieOk(pool, words, live, history) && Fits(history)
      && nextUserId == After(history).user && nextResourceId == After(history).resource
    }

    /** One letter further along the path of a rule being inserted. */
    method StepDown(t: nat, c: Letter) returns (j: nat)
      requires Structure(pool, words, live) && t < |pool| && RefsOk(pool, words, history, words[t], 1)
      requires Refs(history, words[t] + [c]) < MAX_REF
      modifies `pool, `words
      ensures Structure(pool, words, live) && old(words) <= words && |pool| == |words|
      ensures j < |words| && words[j] == old(words)[t] + [c]
      ensures RefsOk(pool, words, history, words[j], 1)
    {
      hide Structure, RefsOk, Refs;
      ChildAt(pool, words, live, t, c);
      var p := pool[t].child[C2i(c)];
      if p == None {
        StepNew(pool, words, live, history, t, c);
        j := |pool|;
        pool := pool[t := pool[t].(child := pool[t].child[C2i(c) := Some(j)])] + [NewNode()];
        words := words + [words[t] + [c]];
      } else {
        j := p.value;
        RoomForOne(pool, words, history, words[t], j);
        StepOld(pool, words, live, history, t, c, j);
        pool := pool[j := pool[j].(refs := pool[j].refs + 1)];
      }
    }

    /** The common part of both insertions: walks along the rule, adding what is missing. */
    method InsertPath(pattern: Rule) returns (t: nat)
      requires Valid() && RoomFor(history, pattern)
      modifies `pool, `words
      ensures Structure(pool, words, live) && t < |pool| == |words| && words[t] == pattern
      ensures RefsOk(pool, words, history, pattern, 1) && live == After(history).live
    {
      hide Structure, RefsOk, TrieOk, After, Refs, Fits;
      StartRefs(pool, words, live, history, 1);
      t := 0;
      RootOnly(pool, words, live);
      for i := 0 to |pattern|
        invariant Structure(pool, words, live) && t < |pool| == |words| && words[t] == pattern[..i]
        invariant RefsOk(pool, words, history, pattern[..i], 1)
      {
        NextLetter(pattern, i);
        t := StepDown(t, pattern[i]);
      }
      assert pattern[..|pattern|] == pattern;
    }

    method InsertForUserId(pattern: Rule)
      requires Valid() && Fits(history + [AddUser(pattern)])
      modifies this
      ensures Valid() && history == old(history) + [AddUser(pattern)]
      ensures live == old(live)[pattern := old(nextUserId)] && nextUserId == old(nextUserId) + 2 && nextResourceId == old(nextResourceId)
    {
      hide TrieOk, Structure, RefsOk, After, Refs, Fits;
      ghost var op := AddUser(pattern);
      NextIds(history, op);
      FitsLeavesRoom(history, op);
      var t := InsertPath(pattern);
      SetPattern(pool, words, live, history, t, nextUserId, op);
      pool := pool[t := pool[t].(pattern := nextUserId)];
      live := live[pattern := nextUserId];
      nextUserId := nextUserId + 2;
      history := history + [op];
    }

    method InsertForResourceId(pattern: Rule)
      requires Valid() && Fits(history + [AddResource(pattern)])
      modifies this
      ensures Valid() && history == old(history) + [AddResource(pattern)]
      ensures live == old(live)[pattern := old(nextResourceId)] && nextResourceId == old(nextResourceId) + 2 && nextUserId == old(nextUserId)
    {
      hide TrieOk, Structure, RefsOk, After, Refs, Fits;
      ghost var op := AddResource(pattern);
      NextIds(history, op);
      FitsLeavesRoom(history, op);
      var t := InsertPath(pattern);
      SetPattern(pool, words, live, history, t, nextResourceId, op);
      pool := pool[t := pool[t].(pattern := nextResourceId)];
      live := live[pattern := nextResourceId];
      nextResourceId := nextResourceId + 2;
      history := history + [op];
    }

    /** The node of a rule, if every node on the way has references. */
    method FindNode(pattern: Rule) returns (found: bool, t: nat)
      requires Valid()
      ensures t < |pool| && (found ==> words[t] == pattern) && (pattern in live ==> found)
    {
      hide TrieOk, After, Refs, Fits;
      OkRoot(pool, words, live, history);
      t := 0;
      for i := 0 to |pattern|
        invariant t < |pool| == |words| && words[t] == pattern[..i]
      {
        assert pattern[..i + 1] == pattern[..i] + [pattern[i]];
        OnPath(pool, words, live, history, t, pattern[i], pattern);
        var p := pool[t].child[C2i(pattern[i])];
        if IsNull(pool, p) {
          return false, t;
        }
        t := p.value;
      }
      assert pattern[..|pattern|] == pattern;
      found := true;
    }

    /** del: takes the references back and clears the id, if the rule is live. */
    method Delete(pattern: Rule)
      requires Valid()
      modifies `pool, `live, `history
      ensures Valid() && history == old(history) + [Remove(pattern)] && live == old(live) - {pattern}
    {
      hide TrieOk, Structure, RefsOk, After, Refs, Fits;
      NextIds(history, Remove(pattern));
      RemoveFits(history, pattern);
      var found, t := FindNode(pattern);
      PatternIs(pool, words, live, history, t);
      if found && pool[t].pattern != NO_PATTERN {
        t := ReleasePath(pattern);
        ClearPattern(pool, words, live, history, t);
        pool := pool[t := pool[t].(pattern := NO_PATTERN)];
      } else {
        IdleRemove(pool, words, live, history, pattern);
      }
      live := live - {pattern};
      history := history + [Remove(pattern)];
    }

    /** Takes one reference back from every node on the way. */
    method ReleasePath(pattern: Rule) returns (t: nat)
      requires Valid() && pattern in live
      modifies `pool
      ensures Structure(pool, words, live) && t < |pool| == |words| && words[t] == pattern
      ensures RefsOk(pool, words, history, pattern, -1) && live == After(history).live
    {
      hide Structure, RefsOk, TrieOk, After, Refs, Fits;
      StartRefs(pool, words, live, history, -1);
      RootOnly(pool, words, live);
      t := 0;
      for i := 0 to |pattern|
        invariant Structure(pool, words, live) && t < |pool| == |words| && words[t] == pattern[..i]
        invariant RefsOk(pool, words, history, pattern[..i], -1)
      {
        NextLetter(pattern, i);
        t := ReleaseOne(t, pattern[i], pattern);
      }
      assert pattern[..|pattern|] == pattern;
    }

    method ReleaseOne(t: nat, c: Letter, ghost pattern: Rule) returns (j: nat)
      requires Structure(pool, words, live) && t < |words| == |pool| && pattern in live && words[t] + [c] <= pattern
      requires RefsOk(pool, words, history, words[t], -1) && live == After(history).live
      modifies `pool
      ensures Structure(pool, words, live) && j < |words| == |pool| && words[j] == words[t] + [c]
      ensures RefsOk(pool, words, history, words[j], -1)
    {
      hide Structure, RefsOk, After, Refs;
      ReleaseStep(pool, words, live, history, t, c, pattern);
      j := pool[t].child[C2i(c)].value;
      if pool[j].refs >= 1 {
        pool := pool[j := pool[j].(refs := pool[j].refs - 1)];
      }
    }

    /** has_child. */
    method HasChild(t: nat) returns (has: bool)
      requires t < |pool| && Shape(pool, t)
      ensures has <==> exists i :: Present(pool, t, i)
    {
      for i := 0 to CHILDNUM
        invariant forall k :: 0 <= k < i ==> !Present(pool, t, k)
      {
        if !IsNull(pool, pool[t].child[i]) {
          assert Present(pool, t, i);
          return true;
        }
      }
      has := false;
    }

    /** match_: searches below node t, first through the next letter, then through a star. */
    method MatchBelow(t: nat, text: Rule, find: bool, id: int) returns (find': bool, id': int)
      requires Valid() && t < |pool|
      ensures Searched(live, words[t], text, find, find', id, id')
      decreases |pool| - t
    {
      hide TrieOk, NodeOk, Below, Hit, Searched, Matches, After, Fits;
      find', id' := find, id;
      ShapeOk(pool, words, live, history, t);
      if text == [] {
        EndSearched(pool, words, live, history, t, find, id);
        find' := find || pool[t].pattern != NO_PATTERN;
        if pool[t].pattern != NO_PATTERN {
          id' := pool[t].pattern;
        }
        return;
      }
      AbsentChild(pool, words, live, history, t, text[0], text[1..]);
      AbsentChild(pool, words, live, history, t, '*', text[FieldEnd(text)..]);
      var has := HasChild(t);
      var p, star := pool[t].child[C2i(text[0])], pool[t].child[C2i('*')];
      if !has {
        assert IsNull(pool, p) by { assert !Present(pool, t, C2i(text[0])); }
        assert IsNull(pool, star) by { assert !Present(pool, t, C2i('*')); }
        BelowByChild(live, words[t], text);
        NothingBelow(live, words[t], text, id, find);
        return;
      }
      if !IsNull(pool, p) {
        find', id' := MatchBelow(p.value, text[1..], find', id');
      } else {
        NothingBelow(live, words[t] + [text[0]], text[1..], id', find');
      }
      ghost var f1, i1 := find', id';
      if !IsNull(pool, star) {
        var i := EndOfField(text);
        find', id' := MatchBelow(star.value, text[i..], find', id');
      } else {
        NothingBelow(live, words[t] + ['*'], text[FieldEnd(text)..], id', find');
      }
      SearchedBoth(live, words[t], text, find, f1, find', id, i1, id');
    }

    method EndOfField(text: Rule) returns (i: nat)
      ensures i == FieldEnd(text)
    {
      i := 0;
      while i < |text| && text[i] != ' '
        invariant i <= |text| && i + FieldEnd(text[i..]) == FieldEnd(text)
      {
        assert text[i..][1..] == text[i + 1..];
        i := i + 1;
      }
    }

    /** match: does a live rule match, and with which id?  A rule that does not match leaves
        the id as it was. */
    method Match(text: Rule, id: int) returns (find: bool, id': int)
      requires Valid()
      ensures find <==> exists r :: r in live && Matches(r, text)
      ensures find ==> exists r :: r in live && Matches(r, text) && id' == live[r]
      ensures !find ==> id' == id
    {
      find, id' := MatchBelow(0, text, false, id);
      FromRoot(live, text, find, id, id');
    }
  }

  /** Child i of node t is there and has references. */
  predicate Present(pool: Pool, t: nat, i: int)
    requires t < |pool|
  {
    0 <= i < |pool[t].child| && pool[t].child[i].Some? && pool[t].child[i].value < |pool| && pool[pool[t].child[i].value].refs != 0
  }

  predicate Shape(pool: Pool, t: nat)
    requires t < |pool|
  {
    |pool[t].child| == CHILDNUM && forall i :: 0 <= i < CHILDNUM && pool[t].child[i].Some? ==> pool[t].child[i].value < |pool|
  }

  function I2c(i: nat): (c: Letter)
    requires i < CHILDNUM
    ensures C2i(c) == i
  {
    if i == 10 then '*' else if i == 11 then ' ' else '0' + i as char
  }

  /** At the end of the text only the node's own rule is left to match. */
  lemma EndSearched(pool: Pool, words: seq<Rule>, live: Live, h: seq<Operation>, t: nat, find: bool, id: int)
    requires TrieOk(pool, words, live, h) && t < |pool|
    ensures var own := pool[t].pattern != NO_PATTERN;
            Searched(live, words[t], [], find, find || own, id, if own then pool[t].pattern else id)
  {
    hide Matches, RefsOk, Below, Hit;
    assert NodeOk(pool, words, live, t);
    BelowAtEnd(live, words[t]);
    OwnHit(live, words[t]);
  }

  lemma OwnHit(live: Live, w: Rule)
    ensures w in live ==> Hit(live, w, [], w)
  {
  }

  lemma ShapeOk(pool: Pool, words: seq<Rule>, live: Live, h: seq<Operation>, t: nat)
    requires TrieOk(pool, words, live, h) && t < |pool|
    ensures Shape(pool, t) && NodeOk(pool, words, live, t) && |pool| == |words|
  {
    assert NodeOk(pool, words, live, t);
    forall i | 0 <= i < CHILDNUM && pool[t].child[i].Some?
      ensures pool[t].child[i].value < |pool|
    {
      assert ChildOk(pool, words, t, I2c(i));
    }
  }

  lemma FromRoot(live: Live, text: Rule, find: bool, id: int, id': int)
    requires Searched(live, [], text, false, find, id, id')
    ensures find <==> exists r :: r in live && Matches(r, text)
    ensures find ==> exists r :: r in live && Matches(r, text) && id' == live[r]
    ensures !find ==> id' == id
  {
    forall r
      ensures Hit(live, [], text, r) <==> r in live && Matches(r, text)
    {
      assert r[0..] == r;
    }
  }

  lemma ChildAt(pool: Pool, words: seq<Rule>, live: Live, t: nat, c: Letter)
    requires Structure(pool, words, live) && t < |pool|
    ensures |pool| == |words| && NodeOk(pool, words, live, t)
    ensures var p := pool[t].child[C2i(c)]; p.Some? ==> 0 < p.value < |pool| && words[p.value] == words[t] + [c]
    ensures pool[t].child[C2i(c)] == None ==> words[t] + [c] !in words
  {
    assert NodeOk(pool, words, live, t);
    assert ChildOk(pool, words, t, c);
  }

  /** A step of an insertion to a child that is missing. */
  lemma StepNew(pool: Pool, words: seq<Rule>, live: Live, h: seq<Operation>, t: nat, c: Letter)
    requires Structure(pool, words, live) && t < |words| == |pool| && NodeOk(pool, words, live, t) && pool[t].child[C2i(c)] == None
    requires RefsOk(pool, words, h, words[t], 1)
    ensures var pool' := pool[t := pool[t].(child := pool[t].child[C2i(c) := Some(|pool|)])] + [NewNode()];
            var words', w := words + [words[t] + [c]], words[t] + [c];
            Structure(pool', words', live) && RefsOk(pool', words', h, w, 1)
  {
    var pool' := pool[t := pool[t].(child := pool[t].child[C2i(c) := Some(|pool|)])] + [NewNode()];
    var words', w := words + [words[t] + [c]], words[t] + [c];
    ChildAt(pool, words, live, t, c);
    assert RefOk(pool'[|pool|], w, h, w, 1);
    hide Structure, RefsOk, Refs;
    NewChild(pool, words, live, t, c);
    Distinct(pool', words', live, |pool|);
    assert words <= words';
    StepRefs(pool, words, h, words[t], c, |pool|, 1, pool', words');
  }

  /** A step of an insertion to a child that exists. */
  lemma StepOld(pool: Pool, words: seq<Rule>, live: Live, h: seq<Operation>, t: nat, c: Letter, j: nat)
    requires Structure(pool, words, live) && t < |words| == |pool| && 0 < j < |words| && words[j] == words[t] + [c]
    requires RefsOk(pool, words, h, words[t], 1) && pool[j].refs < MAX_REF
    ensures var pool', w := pool[j := pool[j].(refs := pool[j].refs + 1)], words[t] + [c];
            Structure(pool', words, live) && RefsOk(pool', words, h, w, 1)
  {
    assert RefOk(pool[j], words[j], h, words[t], 1);
    hide Structure, RefsOk, Refs;
    var pool' := pool[j := pool[j].(refs := pool[j].refs + 1)];
    MoreRefs(pool, words, live, j, pool[j].refs + 1);
    Distinct(pool, words, live, j);
    StepRefs(pool, words, h, words[t], c, j, 1, pool', words);
  }

  /** There is room for the references of one more insertion of the rule. */
  ghost predicate RoomFor(h: seq<Operation>, pattern: Rule) {
    forall w :: w != [] && w <= pattern ==> Refs(h, w) < MAX_REF
  }

  lemma FitsLeavesRoom(h: seq<Operation>, op: Operation)
    requires Fits(h + [op]) && !op.Remove?
    ensures RoomFor(h, op.rule)
  {
    hide Refs, After;
    forall w | w != [] && w <= op.rule
      ensures Refs(h, w) < MAX_REF
    {
      OneMoreOperation(h, op, w);
      assert Refs(h + [op], w) <= MAX_REF;
    }
  }

  lemma RemoveFits(h: seq<Operation>, pattern: Rule)
    requires Fits(h)
    ensures Fits(h + [Remove(pattern)])
  {
    hide Refs, After;
    NextIds(h, Remove(pattern));
    forall w | w != []
      ensures Refs(h + [Remove(pattern)], w) <= MAX_REF
    {
      OneMoreOperation(h, Remove(pattern), w);
    }
  }

  lemma NextIds(h: seq<Operation>, op: Operation)
    ensures After(h + [op]).user == After(h).user + (if op.AddUser? then 2 else 0)
    ensures After(h + [op]).resource == After(h).resource + (if op.AddResource? then 2 else 0)
  {
    assert (h + [op])[..|h|] == h;
  }

  lemma RoomForOne(pool: Pool, words: seq<Rule>, h: seq<Operation>, path: Rule, j: nat)
    requires RefsOk(pool, words, h, path, 1) && 0 < j < |words| && |words[j]| > |path| && Refs(h, words[j]) < MAX_REF
    ensures pool[j].refs < MAX_REF
  {
    assert RefOk(pool[j], words[j], h, path, 1);
  }

  lemma MoreRefs(pool: Pool, words: seq<Rule>, live: Live, j: nat, refs: Short)
    requires Structure(pool, words, live) && j < |pool|
    ensures Structure(pool[j := pool[j].(refs := refs)], words, live)
  {
    var pool' := pool[j := pool[j].(refs := refs)];
    forall i: nat | i < |pool'|
      ensures NodeOk(pool', words, live, i)
    {
      assert NodeOk(pool, words, live, i);
      forall c: Letter
        ensures ChildOk(pool', words, i, c)
      {
        assert ChildOk(pool, words, i, c);
      }
    }
  }

  lemma Distinct(pool: Pool, words: seq<Rule>, live: Live, j: nat)
    requires Structure(pool, words, live) && j < |words|
    ensures |pool| == |words| && forall i: nat :: i < |words| && words[i] == words[j] ==> i == j
  {
  }

  lemma StartRefs(pool: Pool, words: seq<Rule>, live: Live, h: seq<Operation>, delta: int)
    requires TrieOk(pool, words, live, h)
    ensures Structure(pool, words, live) && RefsOk(pool, words, h, [], delta) && live == After(h).live
  {
    forall i: nat | 0 < i < |words|
      ensures RefOk(pool[i], words[i], h, [], delta)
    {
      assert RefOk(pool[i], words[i], h, [], 0);
      NotRoot(pool, words, live, i);
    }
  }

  lemma RootOnly(pool: Pool, words: seq<Rule>, live: Live)
    requires Structure(pool, words, live)
    ensures |pool| == |words| > 0 && words[0] == []
  {
  }

  lemma OkRoot(pool: Pool, words: seq<Rule>, live: Live, h: seq<Operation>)
    requires TrieOk(pool, words, live, h)
    ensures |pool| == |words| > 0 && words[0] == []
  {
  }

  /** The next node on the way to a rule; if the rule is live, it has references. */
  lemma OnPath(pool: Pool, words: seq<Rule>, live: Live, h: seq<Operation>, t: nat, c: Letter, pattern: Rule)
    requires TrieOk(pool, words, live, h) && t < |pool| == |words|
    ensures NodeOk(pool, words, live, t)
    ensures var p := pool[t].child[C2i(c)];
            (p.Some? ==> 0 < p.value < |pool| && words[p.value] == words[t] + [c])
            && (pattern in live && words[t] + [c] <= pattern ==> !IsNull(pool, p))
  {
    ChildAt(pool, words, live, t, c);
    if pattern in live && words[t] + [c] <= pattern {
      PrefixOfLive(pool, words, live, pattern, words[t] + [c]);
      var j := pool[t].child[C2i(c)].value;
      NotRoot(pool, words, live, j);
      assert RefOk(pool[j], words[j], h, [], 0);
      RefsCover(h, words[j]);
      OneThrough(live, words[j], pattern);
    }
  }

  lemma PatternIs(pool: Pool, words: seq<Rule>, live: Live, h: seq<Operation>, t: nat)
    requires TrieOk(pool, words, live, h) && t < |pool|
    ensures t < |words| && (pool[t].pattern != NO_PATTERN <==> words[t] in live)
  {
    assert NodeOk(pool, words, live, t);
  }

  /** A step of a deletion: the live rule's next node exists and has a reference to give. */
  lemma ReleaseStep(pool: Pool, words: seq<Rule>, live: Live, h: seq<Operation>, t: nat, c: Letter, pattern: Rule)
    requires Structure(pool, words, live) && t < |words| == |pool| && pattern in live && words[t] + [c] <= pattern
    requires RefsOk(pool, words, h, words[t], -1) && live == After(h).live
    ensures |pool[t].child| == CHILDNUM && pool[t].child[C2i(c)].Some?
    ensures var j := pool[t].child[C2i(c)].value;
            j < |pool| && words[j] == words[t] + [c] && pool[j].refs >= 1
            && var pool' := pool[j := pool[j].(refs := pool[j].refs - 1)];
               Structure(pool', words, live) && RefsOk(pool', words, h, words[t] + [c], -1)
  {
    hide Structure, RefsOk, Refs, After, Through;
    ChildAt(pool, words, live, t, c);
    PrefixOfLive(pool, words, live, pattern, words[t] + [c]);
    var j := pool[t].child[C2i(c)].value;
    HasRef(pool, words, live, h, t, c, j, pattern);
    var pool' := pool[j := pool[j].(refs := pool[j].refs - 1)];
    MoreRefs(pool, words, live, j, pool[j].refs - 1);
    Distinct(pool, words, live, j);
    StepRefs(pool, words, h, words[t], c, j, -1, pool', words);
  }

  lemma HasRef(pool: Pool, words: seq<Rule>, live: Live, h: seq<Operation>, t: nat, c: Letter, j: nat, pattern: Rule)
    requires t < |words| && RefsOk(pool, words, h, words[t], -1) && live == After(h).live
    requires 0 < j < |words| && words[j] == words[t] + [c] <= pattern && pattern in live
    ensures pool[j].refs >= 1 && pool[j].refs == Refs(h, words[j])
  {
    assert RefOk(pool[j], words[j], h, words[t], -1);
    RefsCover(h, words[j]);
    OneThrough(live, words[j], pattern);
  }

  // ---------- Whole histories ----------

  /** How a rule was last touched. */
  function LastFor(ops: seq<Operation>, r: Rule): Option<Operation> {
    if ops == [] then None
    else if ops[|ops| - 1].rule == r then Some(ops[|ops| - 1]) else LastFor(ops[..|ops| - 1], r)
  }

  /** A rule is live exactly if it was last added, not removed; its id is even if it was last
      added for a user, odd if for a resource, and no other live rule has it. */
  lemma {:induction false} LiveIds(ops: seq<Operation>, r: Rule)
    ensures var h, last := After(ops), LastFor(ops, r);
            && (r in h.live <==> last.Some? && !last.value.Remove?)
            && (r in h.live ==> (h.live[r] % 2 == 0 <==> last.value.AddUser?))
            && (forall q :: q in h.live && q != r && r in h.live ==> h.live[q] != h.live[r])
            && (r in h.live ==> 0 <= h.live[r] < if h.live[r] % 2 == 0 then h.user else h.resource)
            && h.user % 2 == 0 && h.resource % 2 == 1
  {
    if ops != [] {
      var front := ops[..|ops| - 1];
      LiveIds(front, r);
      forall q | q in After(front).live
        ensures 0 <= After(front).live[q] < if After(front).live[q] % 2 == 0 then After(front).user else After(front).resource
      {
        LiveIds(front, q);
      }
    }
  }

  /** The tree run over any history that never leaves a count beyond its C type. */
  method Replay(tree: Tree, ops: seq<Operation>)
    requires tree.Valid() && tree.history == []
    requires forall i :: 0 <= i <= |ops| ==> Fits(ops[..i])
    modifies tree
    ensures tree.Valid() && tree.history == ops && tree.live == After(ops).live
    ensures forall i :: 0 < i < |tree.pool| == |tree.words| ==> tree.pool[i].refs == Refs(ops, tree.words[i])
  {
    hide TrieOk, Fits, Refs, After;
    for i := 0 to |ops|
      invariant tree.Valid() && tree.history == ops[..i]
    {
      assert ops[..i + 1] == ops[..i] + [ops[i]];
      match ops[i]
      case AddUser(r) => tree.InsertForUserId(r);
      case AddResource(r) => tree.InsertForResourceId(r);
      case Remove(r) => tree.Delete(r);
    }
    assert ops[..|ops|] == ops;
    NodeRefs(tree.pool, tree.words, tree.live, ops);
  }

  /** A rule added and removed n times. */
  function Often(r: Rule, n: nat): (ops: seq<Operation>)
    ensures |ops| == 2 * n
  {
    if n == 0 then [] else Often(r, n - 1) + [AddUser(r)] + [Remove(r)]
  }

  lemma {:induction false} OftenLeaves(r: Rule, n: nat)
    ensures After(Often(r, n)) == History(map[], 2 * n, 1) && forall w :: Refs(Often(r, n), w) == 0
  {
    if n > 0 {
      OftenLeaves(r, n - 1);
      RoundTrip(Often(r, n - 1), r);
    }
  }

  /** Adding and removing a rule that was not there leaves everything but the next id. */
  lemma {:induction false} RoundTrip(ops: seq<Operation>, r: Rule)
    requires r !in After(ops).live
    ensures var all := ops + [AddUser(r)] + [Remove(r)];
            After(all) == After(ops).(user := After(ops).user + 2) && forall w :: Refs(all, w) == Refs(ops, w)
  {
    var half := ops + [AddUser(r)];
    OneMoreOperation(ops, AddUser(r), []);
    OneMoreOperation(half, Remove(r), []);
    NextIds(ops, AddUser(r));
    NextIds(half, Remove(r));
    assert Change(half, Remove(r)) == -1 && Change(ops, AddUser(r)) == 1;
    assert After(half + [Remove(r)]).live == After(ops).live;
    hide Refs, Change, After;
    forall w
      ensures Refs(half + [Remove(r)], w) == Refs(ops, w)
    {
      OneMoreOperation(ops, AddUser(r), w);
      OneMoreOperation(half, Remove(r), w);
    }
  }

  /** What is removed again counts no more: such a history fits however many references it
      has handed out, as long as there are ids. */
  lemma {:induction false} OftenFits(r: Rule, n: nat, i: nat)
    requires 2 * n <= MAX_ID && i <= 2 * n
    ensures Fits(Often(r, n)[..i])
  {
    hide Refs, After;
    var ops := Often(r, n);
    OftenLeaves(r, n);
    if i == 2 * n {
      assert ops[..i] == ops;
    } else if i == 2 * n - 1 {
      assert ops[..i] == Often(r, n - 1) + [AddUser(r)];
      OftenLeaves(r, n - 1);
      OneRuleFits(Often(r, n - 1), r);
    } else {
      OftenFits(r, n - 1, i);
      assert ops[..i] == Often(r, n - 1)[..i];
    }
  }

  lemma OneRuleFits(ops: seq<Operation>, r: Rule)
    requires After(ops).user + 2 <= MAX_ID && After(ops).resource <= MAX_ID && forall w :: Refs(ops, w) == 0
    ensures Fits(ops + [AddUser(r)])
  {
    hide Refs, After;
    NextIds(ops, AddUser(r));
    forall w | w != []
      ensures Refs(ops + [AddUser(r)], w) <= MAX_REF
    {
      OneMoreOperation(ops, AddUser(r), w);
    }
  }

  lemma NodeRefs(pool: Pool, words: seq<Rule>, live: Live, h: seq<Operation>)
    requires TrieOk(pool, words, live, h)
    ensures live == After(h).live && |pool| == |words| && forall i :: 0 < i < |pool| ==> pool[i].refs == Refs(h, words[i])
  {
    forall i: nat | 0 < i < |pool|
      ensures pool[i].refs == Refs(h, words[i])
    {
      assert RefOk(pool[i], words[i], h, [], 0);
      NotRoot(pool, words, live, i);
    }
  }
}
