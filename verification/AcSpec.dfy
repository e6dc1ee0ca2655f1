/** What multi-pattern search means, independently of any automaton: the trie words are
    the prefixes of the patterns, and the only thing a search must remember about the
    text read so far is its longest suffix that is a trie word. */
module AcSpec {
  import opened Common

  type Pattern = seq<Byte>

  /** w is the empty word or a prefix of some pattern. */
  ghost predicate InTrie(patterns: seq<Pattern>, w: seq<Byte>) {
    w == [] || exists i :: 0 <= i < |patterns| && w <= patterns[i]
  }

  ghost predicate IsSuffix(p: seq<Byte>, t: seq<Byte>) {
    |p| <= |t| && t[|t| - |p|..] == p
  }

  /** Suffixes of a suffix u of t are the suffixes of t no longer than u. */
  lemma SuffixOfSuffix(p: seq<Byte>, u: seq<Byte>, t: seq<Byte>)
    requires IsSuffix(u, t)
    ensures IsSuffix(p, u) <==> IsSuffix(p, t) && |p| <= |u|
  {
    if |p| <= |u| {
      assert u[|u| - |p|..] == t[|t| - |u|..][|u| - |p|..] == t[|t| - |p|..];
    }
  }

  /** The longest suffix of t that is a trie word. */
  ghost function LongestSuffix(patterns: seq<Pattern>, t: seq<Byte>): (u: seq<Byte>)
    ensures InTrie(patterns, u) && |u| <= |t|
  {
    if InTrie(patterns, t) then t else LongestSuffix(patterns, t[1..])
  }

  lemma {:induction false} PrefixInTrie(patterns: seq<Pattern>, w: seq<Byte>, k: nat)
    requires InTrie(patterns, w) && k <= |w|
    ensures InTrie(patterns, w[..k])
  {
    if w != [] {
      var i :| 0 <= i < |patterns| && w <= patterns[i];
      assert w[..k] <= patterns[i];
    }
  }

  /** LongestSuffix(t) is a suffix of t, and every trie word that is a suffix of t is
      a suffix of it: it really is the longest one. */
  lemma {:induction false} LongestSuffixIsLongest(patterns: seq<Pattern>, t: seq<Byte>, p: seq<Byte>)
    ensures IsSuffix(LongestSuffix(patterns, t), t)
    ensures InTrie(patterns, p) && IsSuffix(p, t) ==> IsSuffix(p, LongestSuffix(patterns, t))
  {
    if !InTrie(patterns, t) {
      LongestSuffixIsLongest(patterns, t[1..], p);
      var u := LongestSuffix(patterns, t[1..]);
      assert t[|t| - |u|..] == t[1..][|t| - 1 - |u|..];
      if InTrie(patterns, p) && IsSuffix(p, t) {
        assert p != t;
        assert t[1..][|t| - 1 - |p|..] == t[|t| - |p|..];
      }
    }
  }

  /** Reading one more byte: the longest suffix of t + [c] can be computed from the
      longest suffix of t alone.  This is what makes a finite automaton possible. */
  lemma {:induction false} LongestSuffixStep(patterns: seq<Pattern>, t: seq<Byte>, c: Byte)
    ensures LongestSuffix(patterns, t + [c]) == LongestSuffix(patterns, LongestSuffix(patterns, t) + [c])
  {
    if !InTrie(patterns, t) {
      assert !InTrie(patterns, t + [c]) by {
        assert (t + [c])[..|t|] == t;
        if InTrie(patterns, t + [c]) { PrefixInTrie(patterns, t + [c], |t|); }
      }
      assert (t + [c])[1..] == t[1..] + [c];
      LongestSuffixStep(patterns, t[1..], c);
    }
  }

  /** The word a failure link leads to: the longest proper suffix in the trie. */
  ghost function FailWord(patterns: seq<Pattern>, w: seq<Byte>): (u: seq<Byte>)
    requires w != []
    ensures InTrie(patterns, u) && |u| < |w|
  {
    LongestSuffix(patterns, w[1..])
  }

  /** Failing on c and completing the row of w with the row of its failure word
      agree, and the failure word of w + [c] is found the same way. */
  lemma {:induction false} FailStep(patterns: seq<Pattern>, w: seq<Byte>, c: Byte)
    requires w != []
    ensures FailWord(patterns, w + [c]) == LongestSuffix(patterns, FailWord(patterns, w) + [c])
    ensures !InTrie(patterns, w + [c]) ==>
              LongestSuffix(patterns, w + [c]) == LongestSuffix(patterns, FailWord(patterns, w) + [c])
  {
    assert (w + [c])[1..] == w[1..] + [c];
    LongestSuffixStep(patterns, w[1..], c);
  }

  /** The list entries equal to w, as often as they are listed. */
  ghost function Own(patterns: seq<Pattern>, w: seq<Byte>): multiset<Pattern> {
    multiset{}[w := multiset(patterns)[w]]
  }

  /** What the build leaves in the match list of the state of w: its own entries and,
      from depth 2 on, what the failure state has.  The depth-1 loop copies nothing. */
  ghost function Matches(patterns: seq<Pattern>, w: seq<Byte>): multiset<Pattern>
    decreases |w|
  {
    if |w| <= 1 then Own(patterns, w)
    else Own(patterns, w) + Matches(patterns, FailWord(patterns, w))
  }

  /** The exact report owed at the end of a text t: every non-empty listed pattern that
      is a suffix of t, once per list entry; the empty pattern only where the last byte
      starts no pattern at all. */
  ghost predicate ExactReport(patterns: seq<Pattern>, t: seq<Byte>, report: multiset<Pattern>)
    requires t != []
  {
    forall p: Pattern :: report[p] ==
      if p != [] then (if IsSuffix(p, t) then multiset(patterns)[p] else 0)
      else if InTrie(patterns, [t[|t| - 1]]) then 0 else multiset(patterns)[p]
  }

  lemma TailSuffix(w: seq<Byte>)
    requires w != []
    ensures IsSuffix(w[1..], w)
  {
  }

  lemma ListedInTrie(patterns: seq<Pattern>, p: Pattern)
    ensures multiset(patterns)[p] > 0 ==> InTrie(patterns, p)
  {
    if multiset(patterns)[p] > 0 {
      assert p in patterns;
    }
  }

  lemma {:induction false} MatchesNonEmpty(patterns: seq<Pattern>, w: seq<Byte>, p: Pattern)
    requires p != []
    ensures Matches(patterns, w)[p] == if IsSuffix(p, w) then multiset(patterns)[p] else 0
    decreases |w|
  {
    if |w| >= 2 {
      var u := FailWord(patterns, w);
      MatchesNonEmpty(patterns, u, p);
      LongestSuffixIsLongest(patterns, w[1..], p);
      SuffixOfSuffix(p, u, w[1..]);
      TailSuffix(w);
      SuffixOfSuffix(p, w[1..], w);
      ListedInTrie(patterns, p);
      assert |p| == |w| && IsSuffix(p, w) ==> p == w;
    } else if IsSuffix(p, w) {
      assert p == w;
    }
  }

  lemma {:induction false} MatchesEmpty(patterns: seq<Pattern>, w: seq<Byte>)
    ensures Matches(patterns, w)[[]] ==
            if w != [] && InTrie(patterns, [w[|w| - 1]]) then 0 else multiset(patterns)[[]]
    requires InTrie(patterns, w)
    decreases |w|
  {
    if |w| >= 2 {
      var u := FailWord(patterns, w);
      var last := [w[|w| - 1]];
      MatchesEmpty(patterns, u);
      LongestSuffixIsLongest(patterns, w[1..], last);
      assert w[1..][|w| - 2..] == last;
      if u != [] {
        assert u[|u| - 1] == w[1..][|w| - 1 - |u|..][|u| - 1] == w[|w| - 1];
      }
    }
  }

  /** The match list of the longest-suffix state is the exact report for the whole text. */
  lemma {:induction false} MatchesAreExact(patterns: seq<Pattern>, t: seq<Byte>)
    requires t != []
    ensures ExactReport(patterns, t, Matches(patterns, LongestSuffix(patterns, t)))
  {
    var w := LongestSuffix(patterns, t);
    forall p: Pattern | p != []
      ensures Matches(patterns, w)[p] == if IsSuffix(p, t) then multiset(patterns)[p] else 0
    {
      MatchesNonEmpty(patterns, w, p);
      LongestSuffixIsLongest(patterns, t, p);
      SuffixOfSuffix(p, w, t);
      ListedInTrie(patterns, p);
    }
    var last := [t[|t| - 1]];
    MatchesEmpty(patterns, w);
    LongestSuffixIsLongest(patterns, t, last);
    assert t[|t| - 1..] == last;
    if w != [] {
      assert w[|w| - 1] == t[|t| - |w|..][|w| - 1] == t[|t| - 1];
    }
  }
}
