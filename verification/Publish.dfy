/** The matcher behind the rules: two automata that share one linked pattern list.  Readers
    search A; an update edits the list in place, recompiles B and swaps the two. */
module Publish {
  import opened Common
  import opened AcSpec
  import opened AcMachine
  import opened AcsmObject
  import opened PatternList

  /** The pattern occurs somewhere in the text. */
  ghost predicate Occurs(p: Pattern, text: seq<Byte>) {
    exists i :: OccursAt(p, text, i)
  }

  predicate OccursAt(p: Pattern, text: seq<Byte>, i: int) {
    0 <= i <= |text| - |p| && text[i..i + |p|] == p
  }

  lemma {:induction false} OccursAsSuffix(p: Pattern, text: seq<Byte>)
    ensures Occurs(p, text) <==> exists end :: 0 <= end <= |text| && IsSuffix(p, text[..end])
  {
    if Occurs(p, text) {
      var i :| OccursAt(p, text, i);
      assert text[..i + |p|][i..] == p;
      assert IsSuffix(p, text[..i + |p|]);
    }
    if end :| 0 <= end <= |text| && IsSuffix(p, text[..end]) {
      assert text[..end][end - |p|..] == text[end - |p|..end];
      assert OccursAt(p, text, end - |p|);
    }
  }

  /** Among the hits of an automaton is a non-empty pattern exactly if it is listed and
      occurs in the text. */
  lemma {:induction false} HitIffOccurs(list: seq<Pattern>, words: Words, t: Table, text: seq<Byte>, p: Pattern)
    requires Compiled(list, words, t) && p != []
    ensures (exists k :: 0 <= k < |AllHits(t, text)| && AllHits(t, text)[k].pattern == p) <==> p in list && Occurs(p, text)
  {
    hide Compiled, AllHits, IsSuffix;
    var hits := AllHits(t, text);
    OccursAsSuffix(p, text);
    if k :| 0 <= k < |hits| && hits[k].pattern == p {
      assert hits[k] in multiset(hits);
      SearchIsExact(list, words, t, text, p, hits[k].end);
      assert IsSuffix(p, text[..hits[k].end]);
      assert multiset(list)[p] > 0;
    }
    if p in list && Occurs(p, text) {
      var end :| 0 <= end <= |text| && IsSuffix(p, text[..end]);
      NotAtStart(p, text, end);
      SearchIsExact(list, words, t, text, p, end);
      assert multiset(list)[p] > 0;
      assert Hit(p, end) in multiset(hits);
    }
  }

  lemma NotAtStart(p: Pattern, text: seq<Byte>, end: nat)
    requires p != [] && end <= |text| && IsSuffix(p, text[..end])
    ensures end >= 1
  {
  }

  // ---------- Nodes of the two sides ----------

  /** An automaton with the heads of its pattern list and of its states' match lists. */
  datatype Side = Side(acsm: Acsm, head: Option<Addr>, lists: seq<Option<Addr>>)

  /** Every match list is there, node by node, and holds what the table says. */
  ghost predicate ListsOk(mem: Memory, side: Side, at: seq<seq<Addr>>)
    reads side.acsm
  {
    && |side.lists| == |at| == |side.acsm.table|
    && forall k :: 0 <= k < |at| ==> Holds(mem, side.lists[k], at[k], side.acsm.table[k].matches)
  }

  /** Nodes of match lists are not nodes of the pattern list. */
  ghost predicate Apart(at: seq<seq<Addr>>, listAt: seq<Addr>) {
    forall k, x :: 0 <= k < |at| && x in at[k] ==> x !in listAt
  }

  /** The nodes are still there, as they were. */
  ghost predicate Kept(mem: Memory, mem': Memory, at: seq<seq<Addr>>) {
    forall k, x :: 0 <= k < |at| && x in at[k] && x in mem ==> x in mem' && mem'[x] == mem[x]
  }

  lemma ListsStill(mem: Memory, mem': Memory, side: Side, at: seq<seq<Addr>>)
    requires ListsOk(mem, side, at) && Kept(mem, mem', at)
    ensures ListsOk(mem', side, at)
  {
    hide Holds;
    forall k | 0 <= k < |at|
      ensures Holds(mem', side.lists[k], at[k], side.acsm.table[k].matches)
    {
      HoldsStill(mem, mem', side.lists[k], at[k], side.acsm.table[k].matches);
    }
  }

  lemma ListsIn(mem: Memory, side: Side, at: seq<seq<Addr>>)
    requires ListsOk(mem, side, at)
    ensures forall k, x :: 0 <= k < |at| && x in at[k] ==> x in mem
  {
    hide Holds;
    forall k | 0 <= k < |at|
      ensures forall x :: x in at[k] ==> x in mem
    {
      HoldsIn(mem, side.lists[k], at[k], side.acsm.table[k].matches);
    }
  }

  /** The list after the last completed update. */
  function Listed(published: Option<seq<Pattern>>): seq<Pattern> {
    match published case None => [] case Some(list) => list
  }

  class Matcher {
    var mem: Memory
    /** No node lies at or above this address yet. */
    var brk: Addr
    var a: Side
    var b: Side
    ghost var listAt: seq<Addr>
    ghost var aAt: seq<seq<Addr>>
    ghost var bAt: seq<seq<Addr>>
    /** The list after the last completed update; None before the first. */
    ghost var published: Option<seq<Pattern>>

    constructor ()
      ensures Valid() && published == None && fresh(a.acsm) && fresh(b.acsm)
    {
      var acsm1 := new Acsm();
      var acsm2 := new Acsm();
      a, b := Side(acsm1, None, []), Side(acsm2, None, []);
      mem, brk, listAt, aAt, bAt, published := map[], 0, [], [], [], None;
    }

    ghost predicate MemOk()
      reads this
    {
      forall x :: x in mem ==> x < brk
    }

    /** What readers rely on, in the middle of an update as well: A answers for the
        published list, and none of the nodes it can reach has been freed. */
    ghost predicate Serving()
      reads this, a.acsm
    {
      && MemOk()
      && (published.Some? ==> a.acsm.AnswersFor(published.value) && ListsOk(mem, a, aAt) && Apart(aAt, listAt))
    }

    /** During an update, B's pattern list is the edited one. */
    ghost predicate Editing(list: seq<Pattern>)
      reads this, a.acsm
    {
      a.acsm != b.acsm && Serving() && Holds(mem, b.head, listAt, list) && Distinct(listAt)
    }

    /** Between updates, both automata share the published list. */
    ghost predicate Valid()
      reads this, a.acsm
    {
      Editing(Listed(published)) && a.head == b.head
    }

    // ---------- Reading a list ----------

    /** Collects a list, node by node; every node read is allocated. */
    static method ReadList(mem: Memory, head: Option<Addr>, ghost at: seq<Addr>, ghost list: seq<Pattern>) returns (r: seq<Pattern>)
      requires Holds(mem, head, at, list)
      ensures r == list
    {
      hide Holds;
      r := [];
      var p := head;
      ghost var i := 0;
      HoldsAll(mem, head, at, list, 0);
      while p.Some?
        invariant 0 <= i <= |at| == |list| && r == list[..i]
        invariant p == if i == 0 then head else if i < |at| then Some(at[i]) else None
        invariant i == 0 ==> (head.Some? <==> at != [])
        decreases |at| - i
      {
        HoldsFrom(mem, head, at, list, i);
        r := r + [mem[p.value].pattern];
        p := mem[p.value].next;
        i := i + 1;
      }
      assert list[..i] == list;
    }

    static lemma HoldsAll(mem: Memory, head: Option<Addr>, at: seq<Addr>, list: seq<Pattern>, i: nat)
      requires Holds(mem, head, at, list)
      ensures |at| == |list| && (head.Some? <==> at != []) && (at != [] ==> head == Some(at[0]))
    {
    }

    // ---------- The steps of an update ----------

    /** acsmAddPattern on B: what A answers is not touched. */
    method Add(s: Pattern, ghost list: seq<Pattern>)
      requires Editing(list)
      modifies `mem, `brk, `b, `listAt
      ensures Editing([s] + list) && b.acsm == old(b.acsm) && Kept(old(mem), mem, aAt)
    {
      hide Holds, ListsOk, Acsm.AnswersFor;
      HoldsMore(mem, b.head, listAt, list, brk, s);
      ghost var mem0 := mem;
      if published.Some? {
        ListsIn(mem, a, aAt);
      }
      mem := mem[brk := Node(s, b.head)];
      if published.Some? {
        ListsStill(mem0, mem, a, aAt);
      }
      b := b.(head := Some(brk));
      listAt := [brk] + listAt;
      brk := brk + 1;
    }

    /** acsmDelPattern on B: the first entry that is the same string as s is unlinked, and freed unless it is
        the head.  On the empty list the source reads through a null pointer. */
    method Delete(s: Pattern, ghost list: seq<Pattern>)
      requires Editing(list) && list != []
      modifies `mem, `b, `listAt
      ensures Editing(WithoutFirst(list, s)) && b.acsm == old(b.acsm) && (published.Some? ==> Kept(old(mem), mem, aAt))
    {
      hide Holds, ListsOk, Acsm.AnswersFor, WithoutFirst, SameString;
      HoldsAll(mem, b.head, listAt, list, 0);
      HoldsFrom(mem, b.head, listAt, list, 0);
      WithoutFirstAt(list, 0, s);
      var plist := b.head.value;
      if SameString(mem[plist].pattern, s) {
        DropHead(list);
        ghost var at0 := listAt;
        b := b.(head := mem[plist].next);
        listAt := listAt[1..];
        assert list[..0] + list[1..] == list[1..];
        assert forall x :: x in listAt ==> x in at0;
        return;
      }
      ghost var i: nat := 0;
      while mem[plist].next.Some?
        invariant i < |listAt| == |list| && plist == listAt[i] && plist in mem
        invariant mem == old(mem) && b == old(b) && listAt == old(listAt)
        invariant mem[plist].next == (if i + 1 < |listAt| then Some(listAt[i + 1]) else None)
        invariant forall n :: 0 <= n <= i ==> !SameString(list[n], s)
        decreases |list| - i
      {
        var culist := mem[plist].next.value;
        HoldsFrom(mem, b.head, listAt, list, i + 1);
        if SameString(mem[culist].pattern, s) {
          WithoutFirstAt(list, i + 1, s);
          Free(plist, culist, list, i);
          return;
        }
        plist := culist;
        i := i + 1;
      }
      WithoutFirstAt(list, |list|, s);
    }

    lemma DropHead(list: seq<Pattern>)
      requires Holds(mem, b.head, listAt, list) && list != [] && Distinct(listAt)
      ensures b.head.Some? && b.head.value in mem && Holds(mem, mem[b.head.value].next, listAt[1..], list[1..]) && Distinct(listAt[1..])
    {
    }

    /** Unlinks culist behind plist and frees it. */
    method Free(plist: Addr, culist: Addr, ghost list: seq<Pattern>, ghost i: nat)
      requires Editing(list) && i + 1 < |listAt| == |list| && plist == listAt[i] && culist == listAt[i + 1]
      requires plist in mem && culist in mem
      modifies `mem, `listAt
      ensures Editing(list[..i + 1] + list[i + 2..]) && culist !in mem && (published.Some? ==> Kept(old(mem), mem, aAt))
    {
      hide Holds, ListsOk, Acsm.AnswersFor;
      HoldsUnlinked(mem, b.head, listAt, list, i);
      ghost var mem0, at0 := mem, listAt;
      mem := mem[plist := mem[plist].(next := mem[culist].next)];
      mem := mem - {culist};
      listAt := listAt[..i + 1] + listAt[i + 2..];
      assert forall x :: x in listAt ==> x in at0;
      if published.Some? {
        assert plist in at0 && culist in at0;
        assert Kept(mem0, mem, aAt);
        ListsStill(mem0, mem, a, aAt);
      }
    }

    /** A is pointed at the edited list; its tables still answer for the old one. */
    method Share(ghost list: seq<Pattern>)
      requires Editing(list)
      modifies `a
      ensures Editing(list) && a == old(a).(head := b.head)
    {
      hide Holds, Acsm.AnswersFor;
      a := a.(head := b.head);
    }

    /** Puts copies of the entries on a list of new nodes, the last one first. */
    method CopyList(matches: seq<Pattern>) returns (head: Option<Addr>, ghost at: seq<Addr>)
      requires MemOk()
      modifies `mem, `brk
      ensures MemOk() && brk >= old(brk) && Holds(mem, head, at, matches)
      ensures forall x :: x in old(mem) ==> x in mem && mem[x] == old(mem)[x]
      ensures forall x :: x in at ==> x >= old(brk)
    {
      hide Holds;
      head, at := None, [];
      var k := |matches|;
      NoNodes(mem);
      assert matches[k..] == [];
      while k > 0
        invariant k <= |matches| && MemOk() && brk >= old(brk) && Holds(mem, head, at, matches[k..]) && Distinct(at)
        invariant forall x :: x in old(mem) ==> x in mem && mem[x] == old(mem)[x]
        invariant forall x :: x in at ==> x >= old(brk)
      {
        k := k - 1;
        assert matches[k..] == [matches[k]] + matches[k + 1..];
        HoldsMore(mem, head, at, matches[k + 1..], brk, matches[k]);
        mem := mem[brk := Node(matches[k], head)];
        head, at, brk := Some(brk), [brk] + at, brk + 1;
      }
      assert matches[0..] == matches;
    }

    static lemma NoNodes(mem: Memory)
      ensures Holds(mem, None, [], [])
    {
    }

    /** The match lists of B's table, in nodes of their own. */
    method CopyLists(ghost list: seq<Pattern>)
      requires Editing(list)
      modifies `mem, `brk, `b, `bAt
      ensures Editing(list) && b == old(b).(lists := b.lists) && ListsOk(mem, b, bAt) && Apart(bAt, listAt)
    {
      hide Holds, Acsm.AnswersFor, Kept;
      HoldsIn(mem, b.head, listAt, list);
      var lists: seq<Option<Addr>> := [];
      ghost var at: seq<seq<Addr>> := [];
      ghost var brk0, mem0 := brk, mem;
      var table := b.acsm.table;
      for k := 0 to |table|
        invariant |lists| == |at| == k && MemOk() && brk >= brk0 && b == old(b)
        invariant forall x :: x in mem0 ==> x in mem && mem[x] == mem0[x]
        invariant forall n :: 0 <= n < k ==> Holds(mem, lists[n], at[n], table[n].matches)
        invariant forall n, x :: 0 <= n < k && x in at[n] ==> x >= brk0
      {
        ghost var mem1 := mem;
        var head;
        ghost var more;
        head, more := CopyList(table[k].matches);
        forall n | 0 <= n < k
          ensures Holds(mem, lists[n], at[n], table[n].matches)
        {
          HoldsStill(mem1, mem, lists[n], at[n], table[n].matches);
        }
        lists := lists + [head];
        at := at + [more];
      }
      b := b.(lists := lists);
      bAt := at;
      HoldsStill(mem0, mem, b.head, listAt, list);
      if published.Some? {
        assert Kept(mem0, mem, aAt) by { StillKept(mem0, mem, aAt); }
        ListsStill(mem0, mem, a, aAt);
      }
    }

    static lemma StillKept(mem: Memory, mem': Memory, at: seq<seq<Addr>>)
      requires forall x :: x in mem ==> x in mem' && mem'[x] == mem[x]
      ensures Kept(mem, mem', at)
    {
    }

    method Compile(ghost list: seq<Pattern>)
      requires Editing(list)
      modifies `mem, `brk, `b, `bAt, b.acsm
      ensures Editing(list) && b == old(b).(lists := b.lists)
      ensures b.acsm.AnswersFor(list) && ListsOk(mem, b, bAt) && Apart(bAt, listAt)
    {
      hide Holds, ListsOk, Acsm.AnswersFor;
      b.acsm.patterns := ReadList(mem, b.head, listAt, list);
      b.acsm.Compile();
      CopyLists(list);
    }

    /** The new automaton is published. */
    method Swap(ghost list: seq<Pattern>)
      requires Editing(list) && a.head == b.head
      requires b.acsm.AnswersFor(list) && ListsOk(mem, b, bAt) && Apart(bAt, listAt)
      modifies `a, `b, `aAt, `bAt, `published
      ensures Valid() && a == old(b) && b == old(a) && published == Some(list)
    {
      hide Holds, ListsOk, Acsm.AnswersFor;
      a, b := b, a;
      aAt, bAt := bAt, aAt;
      published := Some(list);
    }

    // ---------- Updates ----------

    /** addstr. */
    method AddStr(s: Pattern)
      requires Valid()
      modifies this, a.acsm, b.acsm
      ensures Valid() && {a.acsm, b.acsm} == {old(a.acsm), old(b.acsm)} && published == Some([s] + old(Listed(published)))
    {
      hide Editing;
      ghost var list := Listed(published);
      Add(s, list);
      Share([s] + list);
      Compile([s] + list);
      Swap([s] + list);
    }

    /** delstr; the source reads through a null pointer when the list is empty. */
    method DelStr(s: Pattern)
      requires Valid() && Listed(published) != []
      modifies this, a.acsm, b.acsm
      ensures Valid() && {a.acsm, b.acsm} == {old(a.acsm), old(b.acsm)} && published == Some(WithoutFirst(old(Listed(published)), s))
    {
      hide Editing;
      ghost var list := Listed(published);
      Delete(s, list);
      Share(WithoutFirst(list, s));
      Compile(WithoutFirst(list, s));
      Swap(WithoutFirst(list, s));
    }

    // ---------- Readers ----------

    /** acsmSearch_kw and acsmSearch over the nodes of A's match lists: the patterns of all
        hits, in order.  It may run between any two steps of an update. */
    method Search(text: seq<Byte>) returns (keywords: seq<Pattern>)
      requires Serving() && published.Some?
      ensures |keywords| == |AllHits(a.acsm.table, text)|
      ensures forall k :: 0 <= k < |keywords| ==> keywords[k] == AllHits(a.acsm.table, text)[k].pattern
    {
      hide Holds, Compiled, RunTo, AllHits, Numbering, InTrie, LongestSuffix, Matches, DoneEdge;
      ghost var list, words := published.value, a.acsm.words;
      var table := a.acsm.table;
      keywords := [];
      var state := 0;
      NothingRead(list, words, table, text);
      for i := 0 to |text|
        invariant state == RunTo(table, text[..i]) && 0 <= state < |words|
        invariant |keywords| == |AllHits(table, text[..i])|
        invariant forall k :: 0 <= k < |keywords| ==> keywords[k] == AllHits(table, text[..i])[k].pattern
      {
        StepRun(list, words, table, text, i);
        state := table[state].next[text[i]];
        var more := ReadList(mem, a.lists[state], aAt[state], table[state].matches);
        keywords := keywords + more;
      }
      assert text[..|text|] == text;
    }

    /** kw_match. */
    method KwMatch(text: seq<Byte>) returns (found: nat)
      requires Serving() && published.Some?
      ensures found == |AllHits(a.acsm.table, text)|
      ensures forall p: Pattern, end: nat :: multiset(AllHits(a.acsm.table, text))[Hit(p, end)] == Owed(published.value, text, p, end)
    {
      var keywords := Search(text);
      found := |keywords|;
      forall p: Pattern, end: nat
        ensures multiset(AllHits(a.acsm.table, text))[Hit(p, end)] == Owed(published.value, text, p, end)
      {
        SearchIsExact(published.value, a.acsm.words, a.acsm.table, text, p, end);
      }
    }

    /** get_keywords: a non-empty word is among them exactly if it is published and occurs. */
    method GetKeywords(text: seq<Byte>) returns (keywords: seq<Pattern>)
      requires Serving() && published.Some?
      ensures forall p: Pattern :: p != [] ==> (p in keywords <==> p in published.value && Occurs(p, text))
    {
      keywords := Search(text);
      forall p: Pattern | p != []
        ensures p in keywords <==> p in published.value && Occurs(p, text)
      {
        HitIffOccurs(published.value, a.acsm.words, a.acsm.table, text, p);
      }
    }
  }

  // ---------- Histories ----------

  datatype Update = AddUpdate(s: Pattern) | DeleteUpdate(s: Pattern)

  function After(list: seq<Pattern>, u: Update): seq<Pattern> {
    match u
    case AddUpdate(s) => [s] + list
    case DeleteUpdate(s) => WithoutFirst(list, s)
  }

  function AfterAll(us: seq<Update>): seq<Pattern> {
    if us == [] then [] else After(AfterAll(us[..|us| - 1]), us[|us| - 1])
  }

  /** Nothing is deleted from an empty list. */
  ghost predicate DeletesFit(us: seq<Update>) {
    forall i :: 0 <= i < |us| && us[i].DeleteUpdate? ==> AfterAll(us[..i]) != []
  }

  /** After any history of updates the matcher answers for the list that the history leaves. */
  method Replay(us: seq<Update>) returns (m: Matcher)
    requires DeletesFit(us)
    ensures m.Valid() && m.published == if us == [] then None else Some(AfterAll(us))
  {
    hide Matcher.Valid, Matcher.Editing, Matcher.Serving;
    m := new Matcher();
    for i := 0 to |us|
      invariant m.Valid() && fresh(m) && fresh(m.a.acsm) && fresh(m.b.acsm)
      invariant m.published == if i == 0 then None else Some(AfterAll(us[..i]))
    {
      assert us[..i + 1][..i] == us[..i] && us[..0] == [];
      match us[i]
      case AddUpdate(s) => m.AddStr(s);
      case DeleteUpdate(s) => m.DelStr(s);
    }
    assert us[..|us|] == us;
  }
}
