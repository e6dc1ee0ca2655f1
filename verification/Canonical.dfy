/** Canonical prefix codes as section 3.2.2 of RFC 1951 assigns them: codes of one length
    are consecutive numbers in symbol order, and shorter codes come first. */
module Canonical {
  import opened Bits

  const BMAX := 16

  /** How many symbols have a code of k bits. */
  function Count(lens: seq<nat>, k: nat): nat {
    if lens == [] then 0
    else Count(lens[..|lens| - 1], k) + (if lens[|lens| - 1] == k then 1 else 0)
  }

  /** next_code of step 2 in the RFC, for the length counts c. */
  function First(c: seq<nat>, k: nat): nat
    requires 1 <= k <= |c|
  {
    if k == 1 then 0 else 2 * (First(c, k - 1) + c[k - 1])
  }

  /** One past the last code of k bits. */
  function End(c: seq<nat>, k: nat): nat
    requires 1 <= k < |c|
  {
    First(c, k) + c[k]
  }

  /** A code word: its length and its number. */
  datatype Slot = Slot(len: nat, code: nat) {
    function Word(): (w: Bits)
      ensures |w| == len
    {
      CodeBits(code, len)
    }
  }

  ghost predicate Fits(c: seq<nat>, g: nat) {
    1 <= g < |c| && forall k :: 1 <= k <= g ==> End(c, k) <= Pow2(k)
  }

  /** The longest codes use up every pattern. */
  ghost predicate Full(c: seq<nat>, g: nat) {
    Fits(c, g) && End(c, g) == Pow2(g) && c[g] > 0
  }

  ghost predicate IsSlot(c: seq<nat>, g: nat, s: Slot) {
    1 <= s.len <= g < |c| && First(c, s.len) <= s.code < End(c, s.len)
  }

  /** The canonical order of code words. */
  predicate Before(s: Slot, t: Slot) {
    s.len < t.len || (s.len == t.len && s.code < t.code)
  }

  lemma {:induction false} EndBeforeFirst(c: seq<nat>, a: nat, b: nat)
    requires 1 <= a < b <= |c|
    ensures Shl(End(c, a), b - a) <= First(c, b)
    decreases b
  {
    if a < b - 1 {
      EndBeforeFirst(c, a, b - 1);
    }
  }

  /** All of slot s lies before the first pattern of t. */
  lemma {:induction false} SlotOrder(c: seq<nat>, g: nat, s: Slot, t: Slot)
    requires IsSlot(c, g, s) && Before(s, t) && t.len <= g && First(c, t.len) <= t.code
    ensures Shl(s.code + 1, t.len - s.len) <= t.code
  {
    if s.len < t.len {
      EndBeforeFirst(c, s.len, t.len);
      ShlOrder(s.code + 1, End(c, s.len), t.len - s.len);
    }
  }

  lemma {:induction false} SlotMsb(c: seq<nat>, g: nat, s: Slot)
    requires Fits(c, g) && IsSlot(c, g, s)
    ensures Msb(s.Word()) == s.code < Pow2(s.len)
  {
    MsbOfCodeBits(s.code, s.len);
  }

  /** Two intervals of words, one a prefix of the other. */
  lemma {:induction false} PrefixByInterval(p: Bits, w: Bits)
    requires |p| <= |w|
    ensures p <= w <==> Shl(Msb(p), |w| - |p|) <= Msb(w) < Shl(Msb(p) + 1, |w| - |p|)
  {
    var n := |w| - |p|;
    var q := w[..|p|];
    MsbInterval(w, |p|);
    assert p <= w ==> q == p;
    if Shl(Msb(p), n) <= Msb(w) < Shl(Msb(p) + 1, n) {
      ShlOrder(Msb(q), Msb(p) + 1, n);
      ShlOrder(Msb(p), Msb(q) + 1, n);
      MsbInjective(p, q);
    }
  }

  /** No code word is a prefix of another. */
  lemma {:induction false} PrefixFree(c: seq<nat>, g: nat, s: Slot, t: Slot)
    requires Fits(c, g) && IsSlot(c, g, s) && IsSlot(c, g, t)
    ensures s.Word() <= t.Word() <==> s == t
  {
    SlotMsb(c, g, s);
    SlotMsb(c, g, t);
    if s.Word() <= t.Word() {
      PrefixByInterval(s.Word(), t.Word());
      if s.len < t.len {
        SlotOrder(c, g, s, t);
      }
    }
  }

  /** The code word that starts the pattern y, found by trying longer and longer codes. */
  ghost function SlotAt(c: seq<nat>, g: nat, y: Bits, k: nat): Slot
    requires Full(c, g) && |y| == g && 1 <= k <= g
    decreases g - k
  {
    if k == g || Msb(y[..k]) < End(c, k) then Slot(k, Msb(y[..k])) else SlotAt(c, g, y, k + 1)
  }

  lemma {:induction false} SlotAtIsSlot(c: seq<nat>, g: nat, y: Bits, k: nat)
    requires Full(c, g) && |y| == g && 1 <= k <= g
    requires Msb(y[..k]) >= First(c, k)
    ensures IsSlot(c, g, SlotAt(c, g, y, k)) && SlotAt(c, g, y, k).Word() <= y
    decreases g - k
  {
    if k == g || Msb(y[..k]) < End(c, k) {
      MsbBound(y);
      assert y[..g] == y;
      CodeBitsOfMsb(y[..k]);
    } else {
      assert y[..k + 1][..k] == y[..k];
      SlotAtIsSlot(c, g, y, k + 1);
    }
  }

  lemma Comparable(a: Bits, b: Bits, y: Bits)
    requires a <= y && b <= y
    ensures a <= b || b <= a
  {
  }

  /** A full code leaves no pattern out: each starts with exactly one code word. */
  lemma {:induction false} Tiling(c: seq<nat>, g: nat, y: Bits) returns (s: Slot)
    requires Full(c, g) && |y| == g
    ensures IsSlot(c, g, s) && s.Word() <= y
    ensures forall t :: IsSlot(c, g, t) && t.Word() <= y ==> t == s
  {
    SlotAtIsSlot(c, g, y, 1);
    s := SlotAt(c, g, y, 1);
    forall t | IsSlot(c, g, t) && t.Word() <= y
      ensures t == s
    {
      PrefixFree(c, g, s, t);
      PrefixFree(c, g, t, s);
      Comparable(s.Word(), t.Word(), y);
    }
  }

  // ---------- The code of a symbol ----------

  /** Length counts, as an array indexed by length; lengths of zero do not count. */
  function Counts(lens: seq<nat>): (c: seq<nat>)
    ensures |c| == BMAX + 1
  {
    seq(BMAX + 1, k => if k < 0 then 0 else Count(lens, k))
  }

  /** The position of a symbol among those with the same length. */
  function Rank(lens: seq<nat>, sym: nat): nat
    requires sym < |lens|
  {
    Count(lens[..sym], lens[sym])
  }

  /** Step 3 in the RFC: the code of a symbol. */
  function SlotOf(lens: seq<nat>, sym: nat): Slot
    requires sym < |lens| && 1 <= lens[sym] <= BMAX
  {
    Slot(lens[sym], First(Counts(lens), lens[sym]) + Rank(lens, sym))
  }

  /** How many symbols have shorter codes than k bits. */
  function Offset(c: seq<nat>, k: nat): nat
    requires 1 <= k <= |c|
  {
    if k == 1 then 0 else Offset(c, k - 1) + c[k - 1]
  }

  /** The place of a code word in the canonical order. */
  function Place(c: seq<nat>, s: Slot): int
    requires 1 <= s.len < |c|
  {
    Offset(c, s.len) + s.code - First(c, s.len)
  }

  lemma {:induction false} CountMonotone(lens: seq<nat>, i: nat, k: nat)
    requires i <= |lens|
    ensures Count(lens[..i], k) + (if i < |lens| && lens[i] == k then 1 else 0) <= Count(lens, k)
  {
    if i == |lens| {
      assert lens[..i] == lens;
    } else {
      var front := lens[..|lens| - 1];
      if i < |front| {
        CountMonotone(front, i, k);
        assert front[..i] == lens[..i];
      } else {
        assert front == lens[..i];
      }
    }
  }

  /** The code of a symbol is one of the code words, and distinct symbols get distinct ones. */
  lemma {:induction false} SymbolSlots(lens: seq<nat>, sym: nat, other: nat)
    requires sym < |lens| && 1 <= lens[sym] <= BMAX
    requires other < |lens| && 1 <= lens[other] <= BMAX
    ensures var s := SlotOf(lens, sym); First(Counts(lens), s.len) <= s.code < End(Counts(lens), s.len)
    ensures SlotOf(lens, sym) == SlotOf(lens, other) ==> sym == other
  {
    CountMonotone(lens, sym, lens[sym]);
    if sym < other {
      CountMonotone(lens[..other], sym, lens[sym]);
      assert lens[..other][..sym] == lens[..sym];
    } else if other < sym {
      CountMonotone(lens[..sym], other, lens[other]);
      assert lens[..sym][..other] == lens[..other];
    }
  }
}
