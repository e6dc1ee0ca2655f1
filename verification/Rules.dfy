/** Keyword rules: words joined by "&" and "#", parsed from text, kept in a table, and
    matched against a text through the published automaton. */
module Rules {
  import opened Common
  import opened AcSpec
  import opened PatternList
  import opened Publish

  const HASH: Byte := 35
  const AMPERSAND: Byte := 38
  const SPACE: Byte := 32
  const MAX_WORDS := 4
  const TEXT_SIZE := 256
  const MAX_HITS := 32
  const MAX_RULES := 10000

  predicate IsLogic(c: Byte) { c == HASH || c == AMPERSAND }

  // ---------- Parsing ----------

  datatype Query = Query(words: seq<Pattern>, ops: seq<Byte>)

  /** The position of the first operator, or the length. */
  function LogicAt(q: seq<Byte>): (i: nat)
    ensures i <= |q| && (i < |q| ==> IsLogic(q[i])) && forall k :: 0 <= k < i ==> !IsLogic(q[k])
  {
    if q == [] || IsLogic(q[0]) then 0 else 1 + LogicAt(q[1..])
  }

  function SkipSpaces(q: seq<Byte>): (i: nat)
    ensures i <= |q| && (i < |q| ==> q[i] != SPACE)
  {
    if q == [] || q[0] != SPACE then 0 else 1 + SkipSpaces(q[1..])
  }

  function ToSpace(q: seq<Byte>): (i: nat)
    ensures i <= |q| && (i < |q| ==> q[i] == SPACE) && forall k :: 0 <= k < i ==> q[k] != SPACE
  {
    if q == [] || q[0] == SPACE then 0 else 1 + ToSpace(q[1..])
  }

  /** The first word of a field. */
  function WordOf(field: seq<Byte>): Pattern {
    var rest := field[SkipSpaces(field)..];
    rest[..ToSpace(rest)]
  }

  /** One word a field; a field behind the last operator counts unless it is empty. */
  function Parsed(q: seq<Byte>): Query
    decreases |q|
  {
    if q == [] then Query([], [])
    else
      var i := LogicAt(q);
      if i == |q| then Query([WordOf(q)], [])
      else
        var rest := Parsed(q[i + 1..]);
        Query([WordOf(q[..i])] + rest.words, [q[i]] + rest.ops)
  }

  function Join(a: Query, b: Query): Query { Query(a.words + b.words, a.ops + b.ops) }

  method StillHasLogic(q: seq<Byte>) returns (has: bool)
    ensures has <==> LogicAt(q) < |q|
  {
    for i := 0 to |q|
      invariant forall k :: 0 <= k < i ==> !IsLogic(q[k])
    {
      if IsLogic(q[i]) {
        return true;
      }
    }
    has := false;
  }

  lemma {:induction false} SkipsTo(q: seq<Byte>, n: nat)
    requires n <= |q| && (forall k :: 0 <= k < n ==> q[k] == SPACE) && (n < |q| ==> q[n] != SPACE)
    ensures SkipSpaces(q) == n
  {
    if n > 0 { SkipsTo(q[1..], n - 1); }
  }

  lemma {:induction false} TakesTo(q: seq<Byte>, n: nat)
    requires n <= |q| && (forall k :: 0 <= k < n ==> q[k] != SPACE) && (n < |q| ==> q[n] == SPACE)
    ensures ToSpace(q) == n
  {
    if n > 0 { TakesTo(q[1..], n - 1); }
  }

  lemma {:induction false} WordIs(field: seq<Byte>, s: nat, j: nat)
    requires s <= j <= |field| && (forall k :: 0 <= k < s ==> field[k] == SPACE) && (s < |field| ==> field[s] != SPACE)
    requires (forall k :: s <= k < j ==> field[k] != SPACE) && (j < |field| ==> field[j] == SPACE)
    ensures WordOf(field) == field[s..j]
  {
    SkipsTo(field, s);
    TakesTo(field[s..], j - s);
  }

  /** Copies the word that starts behind the spaces at `start`, up to `end` or a space. */
  method TakeWord(q: seq<Byte>, start: nat, end: nat) returns (word: Pattern)
    requires start <= end <= |q|
    ensures word == WordOf(q[start..end])
  {
    hide WordOf;
    var s := start;
    while s < end && q[s] == SPACE
      invariant start <= s <= end && forall k :: start <= k < s ==> q[k] == SPACE
    {
      s := s + 1;
    }
    word := [];
    var j := s;
    while j < end && q[j] != SPACE
      invariant s <= j <= end && word == q[s..j] && forall k :: s <= k < j ==> q[k] != SPACE
    {
      word := word + [q[j]];
      j := j + 1;
    }
    WordBetween(q, start, end, s, j);
  }

  lemma WordBetween(q: seq<Byte>, start: nat, end: nat, s: nat, j: nat)
    requires start <= s <= j <= end <= |q| && (forall k :: start <= k < s ==> q[k] == SPACE) && (s < end ==> q[s] != SPACE)
    requires (forall k :: s <= k < j ==> q[k] != SPACE) && (j < end ==> q[j] == SPACE)
    ensures WordOf(q[start..end]) == q[s..j]
  {
    hide WordOf;
    FieldIs(q, start, end);
    WordIs(q[start..end], s - start, j - start);
    SliceOfSlice(q, start, end, s, j);
  }

  lemma FieldIs(q: seq<Byte>, start: nat, end: nat)
    requires start <= end <= |q|
    ensures forall k :: 0 <= k < end - start ==> q[start..end][k] == q[start + k]
  {
  }

  lemma SliceOfSlice(q: seq<Byte>, start: nat, end: nat, s: nat, j: nat)
    requires start <= s <= j <= end <= |q|
    ensures q[start..end][s - start..j - start] == q[s..j]
  {
    var a, b := q[start..end][s - start..j - start], q[s..j];
    assert |a| == |b|;
    assert forall k :: 0 <= k < |a| ==> a[k] == q[s + k];
  }

  /** parse; the source's arrays hold four words and three operators. */
  method Parse(q: seq<Byte>) returns (r: Query)
    requires |Parsed(q).words| <= MAX_WORDS && |Parsed(q).ops| < MAX_WORDS && |q| < TEXT_SIZE
    ensures r == Parsed(q)
  {
    hide Parsed, LogicAt, WordOf;
    r := Query([], []);
    var start, i := 0, 0;
    assert q[0..] == q;
    while i < |q|
      invariant start <= i <= |q| && Join(r, Parsed(q[start..])) == Parsed(q)
      invariant forall k :: start <= k < i ==> !IsLogic(q[k])
      invariant i == |q| ==> start == |q|
    {
      var has := StillHasLogic(q[start..]);
      if !has {
        var word := TakeWord(q, start, |q|);
        LastField(q, start);
        return Join(r, Query([word], []));
      }
      LogicAhead(q, start, i);
      if IsLogic(q[i]) {
        var word := TakeWord(q, start, i);
        NextField(r, q, start, i);
        r := Join(r, Query([word], [q[i]]));
        start := i + 1;
      }
      i := i + 1;
    }
    NothingLeft(q[start..]);
  }

  lemma NothingLeft(q: seq<Byte>)
    requires q == []
    ensures Parsed(q) == Query([], [])
  {
  }

  lemma LastField(q: seq<Byte>, start: nat)
    requires start < |q| && LogicAt(q[start..]) == |q[start..]|
    ensures Parsed(q[start..]) == Query([WordOf(q[start..|q|])], [])
  {
    hide LogicAt, WordOf;
    assert q[start..|q|] == q[start..];
  }

  lemma NextField(r: Query, q: seq<Byte>, start: nat, i: nat)
    requires start <= i < |q| && IsLogic(q[i]) && forall k :: start <= k < i ==> !IsLogic(q[k])
    ensures Join(r, Parsed(q[start..])) == Join(Join(r, Query([WordOf(q[start..i])], [q[i]])), Parsed(q[i + 1..]))
  {
    hide WordOf, LogicAt, Parsed;
    var rest := q[start..];
    FirstLogic(rest, i - start);
    ParsedField(rest, i - start);
    assert rest[..i - start] == q[start..i];
    assert rest[i - start + 1..] == q[i + 1..];
    JoinOne(r, WordOf(q[start..i]), q[i], Parsed(q[i + 1..]));
  }

  lemma ParsedField(q: seq<Byte>, i: nat)
    requires i < |q| && LogicAt(q) == i
    ensures var rest := Parsed(q[i + 1..]); Parsed(q) == Query([WordOf(q[..i])] + rest.words, [q[i]] + rest.ops)
  {
    hide WordOf, LogicAt;
  }

  lemma {:induction false} FirstLogic(q: seq<Byte>, i: nat)
    requires i < |q| && IsLogic(q[i]) && forall k :: 0 <= k < i ==> !IsLogic(q[k])
    ensures LogicAt(q) == i
  {
  }

  lemma LogicAhead(q: seq<Byte>, start: nat, i: nat)
    requires start <= i < |q| && (forall k :: start <= k < i ==> !IsLogic(q[k])) && LogicAt(q[start..]) < |q[start..]|
    ensures i + 1 == |q| ==> IsLogic(q[i])
  {
    var k := LogicAt(q[start..]);
    assert q[start..][k] == q[start + k];
  }

  lemma JoinOne(r: Query, word: Pattern, op: Byte, rest: Query)
    ensures Join(r, Query([word] + rest.words, [op] + rest.ops)) == Join(Join(r, Query([word], [op])), rest)
  {
  }

  // ---------- Printing ----------

  /** A word with the spaces around it. */
  datatype Field = Field(before: nat, word: Pattern, after: nat)

  predicate WordOk(w: Pattern) {
    w != [] && forall k :: 0 <= k < |w| ==> w[k] != SPACE && !IsLogic(w[k]) && w[k] != 0
  }

  function Spaces(n: nat): (r: seq<Byte>)
    ensures |r| == n && forall k :: 0 <= k < n ==> r[k] == SPACE
  {
    seq(n, i => SPACE)
  }

  function PrintField(f: Field): seq<Byte> { Spaces(f.before) + f.word + Spaces(f.after) }

  function Print(fields: seq<Field>, ops: seq<Byte>): seq<Byte>
    requires |fields| == |ops| + 1
  {
    if ops == [] then PrintField(fields[0]) else PrintField(fields[0]) + [ops[0]] + Print(fields[1..], ops[1..])
  }

  function WordsOf(fields: seq<Field>): (r: seq<Pattern>)
    ensures |r| == |fields|
  {
    if fields == [] then [] else [fields[0].word] + WordsOf(fields[1..])
  }

  lemma {:induction false} WordOfField(f: Field)
    requires WordOk(f.word)
    ensures WordOf(PrintField(f)) == f.word
    ensures LogicAt(PrintField(f)) == |PrintField(f)| && PrintField(f) != []
  {
    var q := PrintField(f);
    var n := f.before + |f.word|;
    forall k | 0 <= k < |q|
      ensures k < f.before || n <= k ==> q[k] == SPACE
      ensures f.before <= k < n ==> q[k] == f.word[k - f.before]
    {
      if n <= k { assert q[k] == Spaces(f.after)[k - n]; }
    }
    WordIs(q, f.before, n);
    assert q[f.before..n] == f.word;
    forall k | 0 <= k < |q|
      ensures !IsLogic(q[k])
    {
    }
  }

  /** Parsing a printed rule gives its words and operators back, however it is spaced. */
  lemma {:induction false} ParsePrinted(fields: seq<Field>, ops: seq<Byte>)
    requires |fields| == |ops| + 1
    requires (forall k :: 0 <= k < |fields| ==> WordOk(fields[k].word)) && (forall k :: 0 <= k < |ops| ==> IsLogic(ops[k]))
    ensures Parsed(Print(fields, ops)) == Query(WordsOf(fields), ops)
    decreases |ops|
  {
    hide LogicAt, WordOf, PrintField;
    var head := PrintField(fields[0]);
    WordOfField(fields[0]);
    if ops == [] {
      assert fields[1..] == [];
    } else {
      ParsePrinted(fields[1..], ops[1..]);
      var tail := Print(fields[1..], ops[1..]);
      var q := head + [ops[0]] + tail;
      forall k | 0 <= k < |head|
        ensures !IsLogic(q[k])
      {
        assert q[k] == head[k];
      }
      FirstLogic(q, |head|);
      assert q[..|head|] == head && q[|head| + 1..] == tail;
      assert [ops[0]] + ops[1..] == ops;
    }
  }

  // ---------- Formulas ----------

  /** "&" binds tighter than "#". */
  function Eval(ops: seq<Byte>, tf: seq<bool>): bool
    requires |tf| == |ops| + 1
    decreases |ops|
  {
    if ops == [] then tf[0]
    else if ops[0] == HASH then tf[0] || Eval(ops[1..], tf[1..])
    else Eval(ops[1..], [tf[0] && tf[1]] + tf[2..])
  }

  /** match_: the source writes out the formulas of one to three words, and has no value for
      others. */
  function MatchFormula(ops: seq<Byte>, tf: seq<bool>): Option<bool> {
    if |tf| == 1 then Some(tf[0])
    else if |tf| == 2 && |ops| == 1 then
      if ops[0] == HASH then Some(tf[0] || tf[1]) else if ops[0] == AMPERSAND then Some(tf[0] && tf[1]) else None
    else if |tf| == 3 && |ops| == 2 then
      if ops[0] == HASH && ops[1] == HASH then Some(tf[0] || tf[1] || tf[2])
      else if ops[0] == HASH && ops[1] == AMPERSAND then Some(tf[0] || (tf[1] && tf[2]))
      else if ops[0] == AMPERSAND && ops[1] == HASH then Some((tf[0] && tf[1]) || tf[2])
      else if ops[0] == AMPERSAND && ops[1] == AMPERSAND then Some(tf[0] && tf[1] && tf[2])
      else None
    else None
  }

  /** The formulas written out are the value of the rule. */
  lemma {:induction false} FormulaIsEval(ops: seq<Byte>, tf: seq<bool>)
    requires 1 <= |tf| == |ops| + 1 <= 3 && forall k :: 0 <= k < |ops| ==> IsLogic(ops[k])
    ensures MatchFormula(ops, tf) == Some(Eval(ops, tf))
  {
    if |tf| == 2 {
      assert ops[1..] == [];
    } else if |tf| == 3 {
      FormulaIsEval(ops[1..], tf[1..]);
      FormulaIsEval(ops[1..], [tf[0] && tf[1]] + tf[2..]);
    }
  }

  // ---------- The rule table ----------

  datatype Rule = Rule(text: seq<Byte>, words: seq<Pattern>, ops: seq<Byte>)

  /** The rule that a text is parsed to. */
  function RuleOf(query: seq<Byte>): Rule { Rule(query, Parsed(query).words, Parsed(query).ops) }

  /** One to three words, joined by operators. */
  predicate WellFormed(q: Query) {
    1 <= |q.words| == |q.ops| + 1 <= 3
    && (forall k :: 0 <= k < |q.words| ==> q.words[k] != []) && (forall k :: 0 <= k < |q.ops| ==> IsLogic(q.ops[k]))
  }

  /** Which words of the rule occur in the text. */
  ghost function Truth(rule: Rule, text: seq<Byte>): (tf: seq<bool>)
    ensures |tf| == |rule.words| && forall k :: 0 <= k < |tf| ==> tf[k] == Occurs(rule.words[k], text)
  {
    seq(|rule.words|, k requires 0 <= k < |rule.words| => Occurs(rule.words[k], text))
  }

  /** The rule's formula holds over "word occurs in text". */
  ghost predicate RuleHolds(rule: Rule, text: seq<Byte>) {
    |rule.words| == |rule.ops| + 1 && Eval(rule.ops, Truth(rule, text))
  }

  /** The rule "a & b#c". */
  lemma KnownRule(text: seq<Byte>)
    ensures RuleHolds(RuleOf([97, 32, 38, 32, 98, 35, 99]), text) <==> (Occurs([97], text) && Occurs([98], text)) || Occurs([99], text)
  {
    hide Occurs, Parsed;
    KnownWords();
    var tf := Truth(RuleOf([97, 32, 38, 32, 98, 35, 99]), text);
    var rest := [tf[0] && tf[1]] + tf[2..];
    assert rest[1..] == [tf[2]] && [AMPERSAND, HASH][1..] == [HASH] && [HASH][1..] == [];
  }

  lemma KnownWords()
    ensures Parsed([97, 32, 38, 32, 98, 35, 99]) == Query([[97], [98], [99]], [38, 35])
  {
    hide Print, Parsed, WordOk, WordsOf;
    KnownPrinted();
    WordsApart();
    forall b: Byte | b == 97 || b == 98 || b == 99 ensures WordOk([b]) { OneLetter(b); }
    ParsePrinted([Field(0, [97], 1), Field(1, [98], 0), Field(0, [99], 0)], [38, 35]);
  }

  lemma OneLetter(b: Byte)
    requires 97 <= b
    ensures WordOk([b])
  {
  }

  lemma WordsApart()
    ensures WordsOf([Field(0, [97], 1), Field(1, [98], 0), Field(0, [99], 0)]) == [[97], [98], [99]]
  {
    var a, b, c := Field(0, [97], 1), Field(1, [98], 0), Field(0, [99], 0);
    assert [a, b, c][1..] == [b, c] && [b, c][1..] == [c] && [c][1..] == [];
  }

  lemma KnownPrinted()
    ensures Print([Field(0, [97], 1), Field(1, [98], 0), Field(0, [99], 0)], [38, 35]) == [97, 32, 38, 32, 98, 35, 99]
  {
    var a, b, c := Field(0, [97], 1), Field(1, [98], 0), Field(0, [99], 0);
    assert PrintField(a) == [97, 32] && PrintField(b) == [32, 98] && PrintField(c) == [99];
    assert [a, b, c][1..] == [b, c] && [b, c][1..] == [c] && [38, 35][1..] == [35] && [35][1..] == [];
    hide PrintField;
  }

  type RuleTable = seq<Option<Rule>>

  /** The live rules that hold, in table order. */
  ghost function HitsUpTo(table: RuleTable, text: seq<Byte>, n: nat): (hits: seq<nat>)
    requires n <= |table|
    ensures forall i: nat :: i in hits <==> i < n && table[i].Some? && RuleHolds(table[i].value, text)
    ensures (forall k :: 0 <= k < |hits| ==> hits[k] < n) && forall j, k :: 0 <= j < k < |hits| ==> hits[j] < hits[k]
  {
    if n == 0 then []
    else
      HitsUpTo(table, text, n - 1) + (if table[n - 1].Some? && RuleHolds(table[n - 1].value, text) then [n - 1] else [])
  }

  lemma HitsNext(table: RuleTable, text: seq<Byte>)
    ensures HitsUpTo(table, text, 0) == []
    ensures forall n: nat :: n < |table| ==>
              HitsUpTo(table, text, n + 1) ==
              HitsUpTo(table, text, n) + (if table[n].Some? && RuleHolds(table[n].value, text) then [n] else [])
  {
    hide RuleHolds;
  }

  lemma {:induction false} HitsGrow(table: RuleTable, text: seq<Byte>, n: nat)
    requires n <= |table|
    ensures |HitsUpTo(table, text, n)| <= |HitsUpTo(table, text, |table|)|
    decreases |table| - n
  {
    hide RuleHolds, HitsUpTo;
    HitsNext(table, text);
    if n < |table| { HitsGrow(table, text, n + 1); }
  }

  /** Every word of a live rule has been handed to the matcher. */
  ghost predicate RuleOk(rule: Rule, list: seq<Pattern>) {
    WellFormed(Query(rule.words, rule.ops)) && forall w :: w in rule.words ==> w in list
  }

  ghost predicate TableOk(table: RuleTable, list: seq<Pattern>) {
    forall i :: 0 <= i < |table| && table[i].Some? ==> RuleOk(table[i].value, list)
  }

  lemma TableGrows(table: RuleTable, before: seq<Pattern>, list: seq<Pattern>, rule: Rule)
    requires TableOk(table, before) && (forall w :: w in before || w in rule.words ==> w in list) && WellFormed(Query(rule.words, rule.ops))
    ensures TableOk(table + [Some(rule)], list)
  {
    hide WellFormed;
    forall i | 0 <= i < |table| && table[i].Some?
      ensures RuleOk(table[i].value, list)
    {
      assert RuleOk(table[i].value, before);
    }
  }

  lemma RulePublished(table: RuleTable, i: nat, published: Option<seq<Pattern>>)
    requires TableOk(table, Listed(published)) && i < |table| && table[i].Some?
    ensures published.Some? && RuleOk(table[i].value, published.value)
  {
    assert RuleOk(table[i].value, Listed(published));
    assert table[i].value.words[0] in table[i].value.words;
  }

  lemma ServedWhenValid(m: Matcher)
    requires m.Valid()
    ensures m.Serving()
  {
  }

  class Engine {
    const matcher: Matcher
    var table: RuleTable

    constructor ()
      ensures Valid() && table == [] && fresh(matcher) && fresh(matcher.a.acsm) && fresh(matcher.b.acsm)
    {
      matcher := new Matcher();
      table := [];
    }

    ghost predicate Valid()
      reads this, matcher, matcher.a.acsm, matcher.b.acsm
    {
      matcher.Valid() && TableOk(table, Listed(matcher.published))
    }

    /** add_query_rule: parses the rule, hands its words to the matcher and appends it.  The
        places of deleted rules are not used again. */
    method AddRule(query: seq<Byte>)
      requires Valid() && WellFormed(Parsed(query)) && |query| < TEXT_SIZE && |table| < MAX_RULES
      modifies this, matcher, matcher.a.acsm, matcher.b.acsm
      ensures Valid() && table == old(table) + [Some(RuleOf(query))]
      ensures {matcher.a.acsm, matcher.b.acsm} == old({matcher.a.acsm, matcher.b.acsm})
    {
      hide Parsed, Matcher.Editing, RuleOk;
      var q := Parse(query);
      ghost var before := Listed(matcher.published);
      AddWords(q.words);
      TableGrows(table, before, Listed(matcher.published), Rule(query, q.words, q.ops));
      table := table + [Some(Rule(query, q.words, q.ops))];
    }

    method AddWords(words: seq<Pattern>)
      requires matcher.Valid()
      modifies matcher, matcher.a.acsm, matcher.b.acsm
      ensures matcher.Valid()
      ensures {matcher.a.acsm, matcher.b.acsm} == old({matcher.a.acsm, matcher.b.acsm})
      ensures forall w :: w in old(Listed(matcher.published)) || w in words ==> w in Listed(matcher.published)
    {
      ghost var both := {matcher.a.acsm, matcher.b.acsm};
      ghost var before := Listed(matcher.published);
      for i := 0 to |words|
        invariant matcher.Valid() && {matcher.a.acsm, matcher.b.acsm} == both
        invariant forall w :: w in before || w in words[..i] ==> w in Listed(matcher.published)
      {
        assert words[..i + 1] == words[..i] + [words[i]];
        matcher.AddStr(words[i]);
      }
      assert words[..|words|] == words;
    }

    /** del_query_rule: drops every live rule with this text; its words stay listed. */
    method DelRule(query: seq<Byte>)
      requires Valid()
      modifies `table
      ensures Valid() && |table| == |old(table)|
      ensures forall i :: 0 <= i < |table| ==>
                table[i] == if old(table)[i].Some? && old(table)[i].value.text == query then None else old(table)[i]
    {
      for i := 0 to |table|
        invariant |table| == |old(table)| && Valid()
        invariant forall k :: 0 <= k < |table| ==>
                    table[k] == if k < i && old(table)[k].Some? && old(table)[k].value.text == query then None else old(table)[k]
      {
        if table[i].Some? && table[i].value.text == query {
          table := table[i := None];
        }
      }
    }

    /** populate_tf: which words are among the matched keywords. */
    method PopulateTf(rule: Rule, keywords: seq<Pattern>) returns (tf: seq<bool>)
      ensures |tf| == |rule.words| && forall k :: 0 <= k < |tf| ==> (tf[k] <==> rule.words[k] in keywords)
    {
      tf := [];
      for i := 0 to |rule.words|
        invariant |tf| == i && forall k :: 0 <= k < i ==> (tf[k] <==> rule.words[k] in keywords)
      {
        var found := false;
        for j := 0 to |keywords|
          invariant found <==> rule.words[i] in keywords[..j]
        {
          found := found || keywords[j] == rule.words[i];
        }
        assert keywords[..|keywords|] == keywords;
        tf := tf + [found];
      }
    }

    /** match_: the rule's formula over the keywords that the published automaton finds. */
    method MatchRule(rule: Rule, text: seq<Byte>) returns (holds: bool)
      requires matcher.Valid() && matcher.published.Some? && RuleOk(rule, matcher.published.value)
      ensures holds == RuleHolds(rule, text)
    {
      hide Occurs;
      var keywords := matcher.GetKeywords(text);
      var tf := PopulateTf(rule, keywords);
      forall k | 0 <= k < |tf|
        ensures tf[k] == Truth(rule, text)[k]
      {
        assert rule.words[k] in rule.words;
      }
      assert tf == Truth(rule, text);
      FormulaIsEval(rule.ops, tf);
      holds := MatchFormula(rule.ops, tf).value;
    }

    /** logic_query_match: the live rules that hold, in table order. */
    method LogicQueryMatch(text: seq<Byte>) returns (hits: seq<nat>)
      requires Valid() && |HitsUpTo(table, text, |table|)| <= MAX_HITS
      ensures hits == HitsUpTo(table, text, |table|)
    {
      hide RuleHolds, HitsUpTo, Matcher.Editing, RuleOk;
      hits := [];
      HitsNext(table, text);
      for i := 0 to |table|
        invariant hits == HitsUpTo(table, text, i)
      {
        HitsGrow(table, text, i + 1);
        if table[i].Some? {
          RulePublished(table, i, matcher.published);
          ServedWhenValid(matcher);
          var holds := MatchRule(table[i].value, text);
          if holds {
            assert |hits| < MAX_HITS;
            hits := hits + [i];
          }
        }
      }
    }
  }

  // ---------- Histories ----------

  datatype Operation = AddQuery(text: seq<Byte>) | DelQuery(text: seq<Byte>)

  /** The table after a history. */
  function TableAfter(ops: seq<Operation>): (table: RuleTable) {
    if ops == [] then []
    else
      var table, op := TableAfter(ops[..|ops| - 1]), ops[|ops| - 1];
      if op.AddQuery? then table + [Some(RuleOf(op.text))] else Dropped(table, op.text)
  }

  function Dropped(table: RuleTable, text: seq<Byte>): (r: RuleTable)
    ensures |r| == |table| && forall i :: 0 <= i < |r| ==> r[i] == if table[i].Some? && table[i].value.text == text then None else table[i]
  {
    seq(|table|, i requires 0 <= i < |table| => if table[i].Some? && table[i].value.text == text then None else table[i])
  }

  /** How many rules the first n operations added: the place of the next one. */
  function PlaceOf(ops: seq<Operation>, n: nat): (place: nat)
    requires n <= |ops|
  {
    if n == 0 then 0 else PlaceOf(ops, n - 1) + (if ops[n - 1].AddQuery? then 1 else 0)
  }

  lemma {:induction false} PlaceEarlier(ops: seq<Operation>, n: nat)
    requires n < |ops|
    ensures PlaceOf(ops, n) == PlaceOf(ops[..|ops| - 1], n)
  {
    if n > 0 { PlaceEarlier(ops, n - 1); }
  }

  lemma {:induction false} TableLength(ops: seq<Operation>)
    ensures |TableAfter(ops)| == PlaceOf(ops, |ops|)
  {
    if ops != [] {
      TableLength(ops[..|ops| - 1]);
      PlaceEarlier(ops, |ops| - 1);
    }
  }

  /** Rule j is not deleted by the operations behind its addition. */
  predicate StillThere(ops: seq<Operation>, j: nat)
    requires j < |ops|
  {
    forall k :: j < k < |ops| ==> ops[k] != DelQuery(ops[j].text)
  }

  /** The place of an added rule holds that rule, unless its text was deleted later. */
  lemma {:induction false} PlaceHolds(ops: seq<Operation>, j: nat)
    requires j < |ops| && ops[j].AddQuery?
    ensures PlaceOf(ops, j) < |TableAfter(ops)|
    ensures TableAfter(ops)[PlaceOf(ops, j)] == if StillThere(ops, j) then Some(RuleOf(ops[j].text)) else None
  {
    hide Parsed, TableAfter, PlaceOf, StillThere;
    var n := |ops| - 1;
    var front := ops[..n];
    PlaceEarlier(ops, j);
    OneMore(ops);
    if j == n {
      LastPlace(ops);
    } else {
      PlaceHolds(front, j);
      StillThereLater(ops, j);
    }
  }

  lemma LastPlace(ops: seq<Operation>)
    requires ops != [] && ops[|ops| - 1].AddQuery?
    ensures PlaceOf(ops, |ops| - 1) == |TableAfter(ops[..|ops| - 1])| && StillThere(ops, |ops| - 1)
  {
    hide TableAfter;
    TableLength(ops[..|ops| - 1]);
    PlaceEarlier(ops, |ops| - 1);
  }

  lemma StillThereLater(ops: seq<Operation>, j: nat)
    requires j + 1 < |ops|
    ensures StillThere(ops, j) <==> StillThere(ops[..|ops| - 1], j) && ops[|ops| - 1] != DelQuery(ops[j].text)
  {
    var n := |ops| - 1;
    assert forall k :: j < k < n ==> ops[..n][k] == ops[k];
  }

  lemma OneMore(ops: seq<Operation>)
    requires ops != []
    ensures var table, op := TableAfter(ops[..|ops| - 1]), ops[|ops| - 1];
            TableAfter(ops) == if op.AddQuery? then table + [Some(RuleOf(op.text))] else Dropped(table, op.text)
  {
    hide Parsed;
  }

  /** After any history of additions and deletions, a query returns the place of exactly
      the rules that were not deleted since and hold over the text. */
  lemma FoundIff(ops: seq<Operation>, j: nat, text: seq<Byte>)
    requires j < |ops| && ops[j].AddQuery?
    ensures PlaceOf(ops, j) in HitsUpTo(TableAfter(ops), text, |TableAfter(ops)|) <==> StillThere(ops, j) && RuleHolds(RuleOf(ops[j].text), text)
  {
    hide Parsed, RuleHolds, StillThere, TableAfter;
    PlaceHolds(ops, j);
  }

  /** The engine run over a history, and queried. */
  method Replay(engine: Engine, ops: seq<Operation>, text: seq<Byte>) returns (hits: seq<nat>)
    requires engine.Valid() && engine.table == []
    requires forall i :: 0 <= i < |ops| && ops[i].AddQuery? ==> WellFormed(Parsed(ops[i].text)) && |ops[i].text| < TEXT_SIZE
    requires PlaceOf(ops, |ops|) <= MAX_RULES && |HitsUpTo(TableAfter(ops), text, |TableAfter(ops)|)| <= MAX_HITS
    modifies engine, engine.matcher, engine.matcher.a.acsm, engine.matcher.b.acsm
    ensures engine.Valid() && engine.table == TableAfter(ops)
    ensures hits == HitsUpTo(TableAfter(ops), text, |TableAfter(ops)|)
  {
    hide Parsed, RuleHolds, HitsUpTo, WellFormed, TableAfter, Engine.Valid;
    ghost var both := {engine.matcher.a.acsm, engine.matcher.b.acsm};
    NoTable();
    for i := 0 to |ops|
      invariant engine.Valid() && engine.table == TableAfter(ops[..i])
      invariant {engine.matcher.a.acsm, engine.matcher.b.acsm} == both
    {
      OneMore(ops[..i + 1]);
      assert ops[..i + 1][..i] == ops[..i];
      match ops[i]
      case AddQuery(q) =>
        RoomForRule(ops, i);
        engine.AddRule(q);
      case DelQuery(q) =>
        engine.DelRule(q);
        assert engine.table == Dropped(TableAfter(ops[..i]), q);
    }
    assert ops[..|ops|] == ops;
    hits := engine.LogicQueryMatch(text);
  }

  /** The additions up to any point are no more than all of them. */
  lemma {:induction false} RoomForRule(ops: seq<Operation>, i: nat)
    requires i < |ops| && ops[i].AddQuery?
    ensures |TableAfter(ops[..i])| < PlaceOf(ops, |ops|)
    decreases |ops|
  {
    hide TableAfter;
    var front := ops[..|ops| - 1];
    PlaceEarlier(ops, |ops| - 1);
    if i == |ops| - 1 {
      TableLength(front);
    } else {
      RoomForRule(front, i);
      assert front[..i] == ops[..i];
    }
  }

  lemma NoTable()
    ensures TableAfter([]) == []
  {
  }
}
