/** Pattern lists as linked nodes in a memory: what a list holds, and that taking a node out
    of one list leaves the others alone. */
module PatternList {
  import opened Common
  import opened AcSpec
  import opened AcsmObject

  type Addr = nat

  /** A list node.  The bytes of its pattern are never freed, so they count as a value. */
  datatype Node = Node(pattern: Pattern, next: Option<Addr>)

  /** The nodes that are allocated. */
  type Memory = map<Addr, Node>

  /** From head on, the nodes at these addresses are linked, and they hold the list. */
  ghost predicate Holds(mem: Memory, head: Option<Addr>, at: seq<Addr>, list: seq<Pattern>)
    decreases |at|
  {
    && |at| == |list|
    && if at == [] then head == None
       else head == Some(at[0]) && at[0] in mem && mem[at[0]].pattern == list[0] && Holds(mem, mem[at[0]].next, at[1..], list[1..])
  }

  ghost predicate Distinct(at: seq<Addr>) {
    forall i, j :: 0 <= i < j < |at| ==> at[i] != at[j]
  }

  /** Nodes that are still there, and unchanged, hold the same list. */
  lemma {:induction false} HoldsStill(mem: Memory, mem': Memory, head: Option<Addr>, at: seq<Addr>, list: seq<Pattern>)
    requires Holds(mem, head, at, list)
    requires forall x :: x in at && x in mem ==> x in mem' && mem'[x] == mem[x]
    ensures Holds(mem', head, at, list)
    decreases |at|
  {
    if at != [] {
      HoldsStill(mem, mem', mem[at[0]].next, at[1..], list[1..]);
    }
  }

  /** The node at position i, and the list from there on. */
  lemma {:induction false} HoldsFrom(mem: Memory, head: Option<Addr>, at: seq<Addr>, list: seq<Pattern>, i: nat)
    requires Holds(mem, head, at, list) && i < |at|
    ensures at[i] in mem && mem[at[i]].pattern == list[i]
    ensures mem[at[i]].next == (if i + 1 < |at| then Some(at[i + 1]) else None)
    ensures Holds(mem, Some(at[i]), at[i..], list[i..])
    ensures i == 0 ==> head == Some(at[0])
    decreases i
  {
    if i > 0 {
      HoldsFrom(mem, mem[at[0]].next, at[1..], list[1..], i - 1);
      assert at[1..][i - 1..] == at[i..] && list[1..][i - 1..] == list[i..];
      assert i + 1 < |at| ==> at[1..][i] == at[i + 1];
    } else {
      assert at[0..] == at && list[0..] == list;
      assert Holds(mem, mem[at[0]].next, at[1..], list[1..]);
    }
  }

  lemma HoldsIn(mem: Memory, head: Option<Addr>, at: seq<Addr>, list: seq<Pattern>)
    requires Holds(mem, head, at, list)
    ensures forall x :: x in at ==> x in mem
  {
    forall i: nat | i < |at|
      ensures at[i] in mem
    {
      HoldsFrom(mem, head, at, list, i);
    }
  }

  /** A new node in front. */
  lemma HoldsMore(mem: Memory, head: Option<Addr>, at: seq<Addr>, list: seq<Pattern>, x: Addr, p: Pattern)
    requires Holds(mem, head, at, list) && x !in mem && Distinct(at)
    ensures Holds(mem[x := Node(p, head)], Some(x), [x] + at, [p] + list) && Distinct([x] + at)
  {
    HoldsIn(mem, head, at, list);
    HoldsStill(mem, mem[x := Node(p, head)], head, at, list);
    assert ([x] + at)[1..] == at && ([p] + list)[1..] == list;
  }

  /** The memory after unlinking the node behind prev and freeing it. */
  function Unlinked(mem: Memory, prev: Addr, x: Addr): Memory
    requires prev in mem && x in mem
  {
    mem[prev := mem[prev].(next := mem[x].next)] - {x}
  }

  lemma TailOfJoin<T>(s: seq<T>, i: nat)
    requires 0 < i && i + 1 < |s|
    ensures (s[..i + 1] + s[i + 2..])[1..] == s[1..][..i] + s[1..][i + 1..]
  {
    assert s[..i + 1][1..] == s[1..][..i] && s[i + 2..] == s[1..][i + 1..];
  }

  lemma {:induction false} HoldsUnlinked(mem: Memory, head: Option<Addr>, at: seq<Addr>, list: seq<Pattern>, i: nat)
    requires Holds(mem, head, at, list) && Distinct(at) && i + 1 < |at|
    ensures at[i] in mem && at[i + 1] in mem
    ensures Holds(Unlinked(mem, at[i], at[i + 1]), head, at[..i + 1] + at[i + 2..], list[..i + 1] + list[i + 2..])
    ensures Distinct(at[..i + 1] + at[i + 2..])
    decreases i
  {
    HoldsFrom(mem, head, at, list, i);
    HoldsFrom(mem, head, at, list, i + 1);
    var mem' := Unlinked(mem, at[i], at[i + 1]);
    var at', list' := at[..i + 1] + at[i + 2..], list[..i + 1] + list[i + 2..];
    if i > 0 {
      HoldsUnlinked(mem, mem[at[0]].next, at[1..], list[1..], i - 1);
      TailOfJoin(at, i);
      TailOfJoin(list, i);
    } else {
      var rest := at[2..];
      assert at[1..][1..] == rest && list[1..][1..] == list[2..];
      HoldsStill(mem, mem', mem[at[1]].next, rest, list[2..]);
      assert at'[1..] == rest && list'[1..] == list[2..];
    }
  }
}
