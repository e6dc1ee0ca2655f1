/** huft_build as a whole: what it returns for which code lengths, and what its tables
    decode. */
module HuffmanMain {
  import opened Bits
  import opened Canonical
  import opened HuffmanTree
  import opened HuffmanBuild

  // ---------- Code lengths ----------

  ghost predicate LengthsOk(lens: seq<nat>) {
    1 <= |lens| <= N_MAX && forall i :: 0 <= i < |lens| ==> lens[i] <= BMAX
  }

  /** The longest length in use, or 0. */
  function Longest(c: seq<nat>, k: nat): (g: nat)
    requires k < |c|
    ensures g <= k && (g > 0 ==> c[g] > 0) && forall j :: g < j <= k ==> c[j] == 0
  {
    if k == 0 then 0 else if c[k] > 0 then k else Longest(c, k - 1)
  }

  function MaxLen(lens: seq<nat>): nat { Longest(Counts(lens), BMAX) }

  /** The shortest length in use, from k on. */
  function Shortest(c: seq<nat>, k: nat): (m: nat)
    requires 1 <= k < |c|
    ensures k <= m && (m < |c| ==> c[m] > 0) && m <= |c| && forall j :: k <= j < m ==> c[j] == 0
    decreases |c| - k
  {
    if c[k] > 0 then k else if k + 1 == |c| then |c| else Shortest(c, k + 1)
  }

  /** The width of the first lookup: the wanted one, but no less than the shortest and no
      more than the longest code. */
  function LookupBits(lens: seq<nat>, m: nat): nat {
    var k := Shortest(Counts(lens), 1);
    var l := if m < k then k else m;
    if l > MaxLen(lens) then MaxLen(lens) else l
  }

  /** More codes of some length than there are patterns left. */
  ghost predicate Oversubscribed(lens: seq<nat>) {
    exists k :: 1 <= k <= BMAX && End(Counts(lens), k) > Pow2(k)
  }

  /** Every pattern starts with a code. */
  ghost predicate Complete(lens: seq<nat>) {
    MaxLen(lens) > 0 && End(Counts(lens), MaxLen(lens)) == Pow2(MaxLen(lens))
  }

  /** The counts after the longest length has been padded with dummy codes. */
  function Padded(lens: seq<nat>): (c: seq<nat>)
    ensures |c| == BMAX + 1
  {
    var c, g := Counts(lens), MaxLen(lens);
    if g == 0 || End(c, g) > Pow2(g) then c else c[g := c[g] + (Pow2(g) - End(c, g))]
  }

  /** Padding the longest length moves no code. */
  lemma {:induction false} PaddedCodes(lens: seq<nat>, k: nat)
    requires 1 <= k <= MaxLen(lens)
    ensures First(Padded(lens), k) == First(Counts(lens), k) && Offset(Padded(lens), k) == Offset(Counts(lens), k)
    ensures k < MaxLen(lens) ==> End(Padded(lens), k) == End(Counts(lens), k)
  {
    if k > 1 { PaddedCodes(lens, k - 1); }
  }

  /** The checked lengths, padded, are a full code. */
  lemma {:induction false} PaddedIsFull(lens: seq<nat>)
    requires MaxLen(lens) > 0
    requires forall k :: 1 <= k <= MaxLen(lens) ==> End(Counts(lens), k) <= Pow2(k)
    ensures Full(Padded(lens), MaxLen(lens))
  {
    forall k | 1 <= k <= MaxLen(lens)
      ensures End(Padded(lens), k) <= Pow2(k)
      ensures k == MaxLen(lens) ==> End(Padded(lens), k) == Pow2(k)
    {
      PaddedCodes(lens, k);
    }
  }

  /** Beyond the longest length nothing can be oversubscribed for the first time. */
  lemma {:induction false} OversubscribedEarly(lens: seq<nat>)
    ensures Oversubscribed(lens) <==> exists k :: 1 <= k <= MaxLen(lens) && End(Counts(lens), k) > Pow2(k)
  {
    if Oversubscribed(lens) {
      var k :| 1 <= k <= BMAX && End(Counts(lens), k) > Pow2(k);
      FirstOverrun(lens, k);
    }
  }

  lemma {:induction false} FirstOverrun(lens: seq<nat>, k: nat)
    requires 1 <= k <= BMAX && End(Counts(lens), k) > Pow2(k)
    ensures exists j :: 1 <= j <= MaxLen(lens) && End(Counts(lens), j) > Pow2(j)
  {
    if k > MaxLen(lens) {
      assert Counts(lens)[k] == 0;
      FirstOverrun(lens, k - 1);
    }
  }

  // ---------- Counting and sorting ----------

  lemma {:induction false} CountZeroes(lens: seq<nat>, n: nat)
    requires n <= |lens|
    ensures Count(lens[..n], 0) <= n && (Count(lens[..n], 0) == n <==> forall i :: 0 <= i < n ==> lens[i] == 0)
  {
    if n > 0 {
      CountZeroes(lens, n - 1);
      assert lens[..n][..n - 1] == lens[..n - 1];
    }
  }

  lemma {:induction false} TotalCount(lens: seq<nat>, k: nat)
    requires 1 <= k <= BMAX + 1
    ensures Offset(Counts(lens), k) + Count(lens, 0) <= |lens|
  {
    if lens == [] {
      NoneCounted(k);
    } else {
      var front := lens[..|lens| - 1];
      TotalCount(front, k);
      OffsetOfLast(lens, k);
    }
  }

  lemma {:induction false} NoneCounted(k: nat)
    requires 1 <= k <= BMAX + 1
    ensures Offset(Counts([]), k) == 0
  {
    if k > 1 { NoneCounted(k - 1); }
  }

  lemma {:induction false} OffsetOfLast(lens: seq<nat>, k: nat)
    requires 1 <= k <= BMAX + 1 && lens != []
    ensures Offset(Counts(lens), k) ==
            Offset(Counts(lens[..|lens| - 1]), k) + (if 1 <= lens[|lens| - 1] < k then 1 else 0)
  {
    if k > 1 { OffsetOfLast(lens, k - 1); }
  }

  /** Symbols of different lengths go to different parts of the order. */
  lemma {:induction false} OffsetRanges(c: seq<nat>, a: nat, b: nat)
    requires 1 <= a < b <= |c|
    ensures Offset(c, a) + c[a] <= Offset(c, b)
    decreases b
  {
    if a < b - 1 { OffsetRanges(c, a, b - 1); }
  }

  /** order lists the used symbols by length and then by number. */
  ghost predicate Sorted(lens: seq<nat>, order: seq<nat>) {
    && |order| == |lens|
    && forall sym: nat :: sym < |lens| && 1 <= lens[sym] <= BMAX ==> Listed(lens, order, sym)
  }

  /** The symbol is where its code comes in the canonical order. */
  ghost predicate Listed(lens: seq<nat>, order: seq<nat>, sym: nat)
    requires sym < |lens| && 1 <= lens[sym] <= BMAX
  {
    var place := Place(Counts(lens), SlotOf(lens, sym));
    0 <= place < |order| && order[place] == sym
  }

  /** Generates the counts c. */
  method CountLengths(lens: seq<nat>) returns (c: seq<nat>)
    requires LengthsOk(lens)
    ensures c == Counts(lens)
  {
    c := seq(BMAX + 1, k => 0);
    var i := 0;
    while i < |lens|
      invariant i <= |lens| && c == Counts(lens[..i])
    {
      c := c[lens[i] := c[lens[i]] + 1];
      assert lens[..i + 1][..i] == lens[..i];
      i := i + 1;
    }
    assert lens[..i] == lens;
  }

  /** The starting offset of each length in the order. */
  method StartOffsets(c: seq<nat>, g: nat) returns (x: seq<nat>)
    requires |c| == BMAX + 1 && 1 <= g <= BMAX
    ensures |x| == BMAX + 1 && forall k :: 1 <= k <= g ==> x[k] == Offset(c, k)
  {
    x := seq(BMAX + 1, k => 0);
    var i, j, p := g - 1, 0, 1;
    while i != 0
      invariant 1 <= p && i + p == g && |x| == BMAX + 1 && j == Offset(c, p)
      invariant forall k :: 1 <= k <= p ==> x[k] == Offset(c, k)
      decreases i
    {
      j := j + c[p];
      p := p + 1;
      x := x[p := j];
      i := i - 1;
    }
  }

  /** Puts the symbols in order of code length; what lies behind them stays. */
  method SortSymbols(lens: seq<nat>, x0: seq<nat>, v0: seq<nat>) returns (v: seq<nat>)
    requires LengthsOk(lens) && MaxLen(lens) > 0 && |v0| == |lens|
    requires |x0| == BMAX + 1 && forall k :: 1 <= k <= MaxLen(lens) ==> x0[k] == Offset(Counts(lens), k)
    ensures Sorted(lens, v) && |v| == |v0|
    ensures forall n :: Offset(Counts(lens), BMAX + 1) <= n < |v| ==> v[n] == v0[n]
    ensures forall n :: 0 <= n < |v| ==> v[n] == v0[n] || v[n] < |lens|
  {
    hide Count, Offset, First, Counts, Longest;
    v := v0;
    var x := x0;
    var i := 0;
    forall k: nat ensures Count(lens[..0], k) == 0 { NoSymbols(k); }
    while i < |lens|
      invariant i <= |lens| && |v| == |lens| && |x| == BMAX + 1
      invariant forall k :: 1 <= k <= MaxLen(lens) ==> x[k] == Offset(Counts(lens), k) + Count(lens[..i], k)
      invariant forall sym: nat :: sym < i && lens[sym] >= 1 ==> Listed(lens, v, sym)
      invariant forall n :: Offset(Counts(lens), BMAX + 1) <= n < |v| ==> v[n] == v0[n]
      invariant forall n :: 0 <= n < |v| ==> v[n] == v0[n] || v[n] < |lens|
    {
      var j := lens[i];
      forall k: nat ensures Count(lens[..i + 1], k) == Count(lens[..i], k) + (if j == k then 1 else 0) {
        OneMore(lens, i, k);
      }
      if j != 0 {
        UsedLength(lens, i);
        PlaceOfSymbol(lens, i);
        forall sym: nat | sym < i && lens[sym] >= 1
          ensures Place(Counts(lens), SlotOf(lens, sym)) != x[j]
        {
          assert Listed(lens, v, sym);
          PlacesDiffer(lens, sym, i);
        }
        ghost var v1 := v;
        v := v[x[j] := i];
        x := x[j := x[j] + 1];
        forall sym: nat | sym < i + 1 && lens[sym] >= 1
          ensures Listed(lens, v, sym)
        {
          if sym < i { assert Listed(lens, v1, sym); }
        }
      }
      i := i + 1;
    }
  }

  lemma NoSymbols(k: nat)
    ensures Count([], k) == 0
  {
  }

  lemma OneMore(lens: seq<nat>, i: nat, k: nat)
    requires i < |lens|
    ensures Count(lens[..i + 1], k) == Count(lens[..i], k) + (if lens[i] == k then 1 else 0)
  {
    assert lens[..i + 1][..i] == lens[..i];
  }

  lemma UsedLength(lens: seq<nat>, i: nat)
    requires LengthsOk(lens) && i < |lens|
    ensures lens[i] <= MaxLen(lens)
  {
    CountMonotone(lens, i, lens[i]);
    assert Counts(lens)[lens[i]] >= 1;
  }

  lemma {:induction false} PlaceOfSymbol(lens: seq<nat>, sym: nat)
    requires sym < |lens| && 1 <= lens[sym] <= BMAX
    ensures Place(Counts(lens), SlotOf(lens, sym)) == Offset(Counts(lens), lens[sym]) + Rank(lens, sym)
    ensures 0 <= Place(Counts(lens), SlotOf(lens, sym)) < Offset(Counts(lens), BMAX + 1) <= |lens|
  {
    CountMonotone(lens, sym, lens[sym]);
    OffsetRanges(Counts(lens), lens[sym], BMAX + 1);
    TotalCount(lens, BMAX + 1);
  }

  lemma {:induction false} PlacesDiffer(lens: seq<nat>, a: nat, b: nat)
    requires a < b < |lens| && 1 <= lens[a] <= BMAX && 1 <= lens[b] <= BMAX
    ensures Place(Counts(lens), SlotOf(lens, a)) != Place(Counts(lens), SlotOf(lens, b))
  {
    var c := Counts(lens);
    CountMonotone(lens, a, lens[a]);
    CountMonotone(lens, b, lens[b]);
    if lens[a] < lens[b] {
      OffsetRanges(c, lens[a], lens[b]);
    } else if lens[b] < lens[a] {
      OffsetRanges(c, lens[b], lens[a]);
    } else {
      SymbolSlots(lens, a, b);
    }
  }

  // ---------- The build ----------

  /** The code that the build makes tables for. */
  function CodeContext(lens: seq<nat>, m: nat, coding: Coding): Context {
    Context(Padded(lens), MaxLen(lens), LookupBits(lens, m), coding)
  }

  /** Checks the counts, from the shortest length on; y is the number of patterns left. */
  method CheckLengths(c: seq<nat>, k: nat, g: nat) returns (fits: bool, y: int)
    requires |c| == BMAX + 1 && 1 <= k <= g <= BMAX && forall j :: 1 <= j < k ==> c[j] == 0
    ensures fits <==> forall j :: 1 <= j <= g ==> End(c, j) <= Pow2(j)
    ensures fits ==> y == Pow2(g) - End(c, g) >= 0
  {
    y := Pow2(k);
    var j := k;
    NoCodesBelow(c, k, k);
    forall n | 1 <= n < k
      ensures End(c, n) <= Pow2(n)
    {
      NoCodesBelow(c, k, n);
    }
    fits := true;
    while j < g
      invariant k <= j <= g && y == Pow2(j) - First(c, j)
      invariant forall n :: 1 <= n < j ==> End(c, n) <= Pow2(n)
    {
      y := y - c[j];
      if y < 0 {
        assert End(c, j) > Pow2(j);
        return false, y;
      }
      y := 2 * y;
      j := j + 1;
    }
    y := y - c[g];
    if y < 0 {
      assert End(c, g) > Pow2(g);
      return false, y;
    }
  }

  /** huft_build.  junk is what the symbol array held before; it shows only in the entries
      of dummy codes.  The ghost results witness the tables' structure. */
  method HuftBuild(lens: seq<nat>, simple: nat, extras: Extras, m: nat, junk: seq<nat>)
    returns (code: int, tables: Tables, bits: nat, ghost meta: seq<Meta>, ghost order: seq<nat>)
    requires LengthsOk(lens) && |junk| == |lens| && PlainExtras(extras)
    requires InExtras(Coding(junk, simple, extras)) && InExtras(Coding(seq(|lens|, i => i), simple, extras))
    ensures MaxLen(lens) == 0 ==> code == 0 && tables == [] && bits == 0
    ensures MaxLen(lens) > 0 ==> bits == LookupBits(lens, m)
    ensures MaxLen(lens) > 0 ==> Sorted(lens, order)
    ensures MaxLen(lens) > 0 ==> forall n :: Offset(Counts(lens), BMAX + 1) <= n < |order| ==> order[n] == junk[n]
    ensures MaxLen(lens) > 0 ==> |order| == |junk| && forall n :: 0 <= n < |order| ==> order[n] == junk[n] || order[n] < |lens|
    ensures var ctx := CodeContext(lens, m, Coding(order, simple, extras));
            MaxLen(lens) > 0 ==> (code == 2 <==> Oversubscribed(lens) || !AllCodable(ctx))
    ensures var ctx := CodeContext(lens, m, Coding(order, simple, extras));
            MaxLen(lens) > 0 && code != 2 ==>
              code == (if !Complete(lens) && MaxLen(lens) != 1 then 1 else 0)
              && bits == ctx.l && ContextOk(ctx) && AllCodable(ctx) && meta != [] && Finished(ctx, tables, meta)
  {
    hide Counts, Longest, Shortest, Full, Finished, InExtras, AllCodable, Sorted, Padded, PlainExtras;
    code, tables, bits, meta, order := 0, [], 0, [], [];
    var c := CountLengths(lens);
    UsedOrNot(lens);
    if c[0] == |lens| {
      return;
    }
    var k := 1;
    while k <= BMAX && c[k] == 0
      invariant 1 <= k <= BMAX + 1 && forall j :: 1 <= j < k ==> c[j] == 0
    {
      k := k + 1;
    }
    ShortestIs(c, k);
    var l := if m < k then k else m;
    var g := BMAX;
    while g != 0 && c[g] == 0
      invariant 0 <= g <= BMAX && forall j :: g < j <= BMAX ==> c[j] == 0
    {
      g := g - 1;
    }
    LongestIs(c, g);
    if l > g {
      l := g;
    }
    bits := l;
    OversubscribedEarly(lens);
    var fits, y := CheckLengths(c, k, g);
    var x := StartOffsets(c, g);
    var v := SortSymbols(lens, x, junk);
    order := v;
    if !fits {
      return 2, tables, bits, meta, order;
    }
    var c' := c[g := c[g] + y];
    PaddedIsFull(lens);
    var ctx := Context(c', g, l, Coding(v, simple, extras));
    assert c' == Padded(lens) by { PaddedIs(lens); }
    SortedInExtras(lens, junk, v, simple, extras);
    var ok;
    ok, tables, meta := FillTables(ctx, k);
    if !ok {
      return 2, [], bits, [], order;
    }
    code := if y != 0 && g != 1 then 1 else 0;
  }

  lemma UsedOrNot(lens: seq<nat>)
    requires LengthsOk(lens)
    ensures Counts(lens)[0] == |lens| <==> MaxLen(lens) == 0
  {
    CountZeroes(lens, |lens|);
    assert lens[..|lens|] == lens;
    if MaxLen(lens) == 0 {
      forall i | 0 <= i < |lens|
        ensures lens[i] == 0
      {
        UsedLength(lens, i);
      }
    } else if Counts(lens)[0] == |lens| {
      NoneUsed(lens, MaxLen(lens));
    }
  }

  lemma {:induction false} NoneUsed(lens: seq<nat>, k: nat)
    requires k > 0 && forall i :: 0 <= i < |lens| ==> lens[i] == 0
    ensures Count(lens, k) == 0
  {
    if lens != [] { NoneUsed(lens[..|lens| - 1], k); }
  }

  lemma {:induction false} LongestIs(c: seq<nat>, g: nat)
    requires |c| == BMAX + 1 && g <= BMAX && (g > 0 ==> c[g] > 0) && forall j :: g < j <= BMAX ==> c[j] == 0
    ensures Longest(c, BMAX) == g
  {
  }

  lemma {:induction false} ShortestIs(c: seq<nat>, k: nat)
    requires |c| == BMAX + 1 && 1 <= k <= BMAX + 1 && (k <= BMAX ==> c[k] > 0) && forall j :: 1 <= j < k ==> c[j] == 0
    ensures Shortest(c, 1) == k
  {
  }

  lemma PaddedIs(lens: seq<nat>)
    requires MaxLen(lens) > 0 && End(Counts(lens), MaxLen(lens)) <= Pow2(MaxLen(lens))
    ensures Padded(lens) == Counts(lens)[MaxLen(lens) := Counts(lens)[MaxLen(lens)] + (Pow2(MaxLen(lens)) - End(Counts(lens), MaxLen(lens)))]
  {
  }

  lemma SortedInExtras(lens: seq<nat>, junk: seq<nat>, v: seq<nat>, simple: nat, extras: Extras)
    requires |v| == |lens| == |junk| && forall n :: 0 <= n < |v| ==> v[n] == junk[n] || v[n] < |lens|
    requires InExtras(Coding(junk, simple, extras)) && InExtras(Coding(seq(|lens|, i => i), simple, extras))
    ensures InExtras(Coding(v, simple, extras))
  {
    var syms := seq(|lens|, i => i);
    forall n | 0 <= n < |v| && extras.Extras?
      ensures v[n] < simple || v[n] - simple > 30 || v[n] - simple < |extras.base|
    {
      if v[n] < |lens| { assert syms[v[n]] == v[n]; }
    }
  }

  // ---------- What the tables decode ----------

  /** What decoding symbol sym should yield. */
  function SymbolResult(sym: nat, simple: nat, extras: Extras, used: nat): Result {
    if sym < simple then Found(if sym < 256 then 16 else 15, sym, used)
    else if extras.Extras? && sym - simple < |extras.base| == |extras.bits|
    then Found(extras.bits[sym - simple], extras.base[sym - simple], used)
    else Garbage
  }

  function AsResult(r: Huft, used: nat): Result {
    if r.Huft? then Found(r.e, r.v, used) else Garbage
  }

  /** The result of a build with code 0 or 1. */
  ghost predicate Built(lens: seq<nat>, simple: nat, extras: Extras, m: nat, tables: Tables, meta: seq<Meta>, order: seq<nat>) {
    var ctx := CodeContext(lens, m, Coding(order, simple, extras));
    MaxLen(lens) > 0 && LengthsOk(lens) && Sorted(lens, order)
    && ContextOk(ctx) && AllCodable(ctx) && meta != [] && Finished(ctx, tables, meta)
  }

  ghost predicate Wide(lens: seq<nat>, m: nat) {
    WideSubtree(Padded(lens), MaxLen(lens), LookupBits(lens, m))
  }

  /** The bit buffer starts with the code of the symbol. */
  ghost predicate StartsWith(buffer: nat, lens: seq<nat>, sym: nat)
    requires sym < |lens| && 1 <= lens[sym] <= BMAX
  {
    ToBits(buffer, lens[sym]) == SlotOf(lens, sym).Word()
  }

  lemma {:induction false} NoneOversize(lens: seq<nat>, simple: nat, extras: Extras, m: nat, tables: Tables, meta: seq<Meta>, order: seq<nat>)
    requires Built(lens, simple, extras, m, tables, meta, order) && !Wide(lens, m)
    ensures forall t :: 0 <= t < |meta| && meta[t].prefix != [] ==> meta[t].size <= LookupBits(lens, m)
  {
    hide Padded, Counts, Full, CellsOk, HighCellsOk, Populated, Sorted, AllCodable, Multiple, WideSubtree, LengthsOk;
    var ctx := CodeContext(lens, m, Coding(order, simple, extras));
    var stack :| stack != [] && TreeOk(ctx, tables, meta, stack, Slot(ctx.g, Pow2(ctx.g)));
    forall t | 0 <= t < |meta| && meta[t].prefix != []
      ensures meta[t].size <= ctx.l
    {
      assert SizeOk(ctx, meta[t]);
      if Oversize(ctx, meta[t].prefix) {
        OversizeIsWide(ctx, meta[t].prefix);
      }
    }
  }

  /** The decoding theorem: without a wide subtree, every bit buffer that starts with the
      canonical code of a symbol is decoded to that symbol's entry, and exactly the code's
      bits are used, through any number of tables. */
  lemma {:induction false} DecodesSymbol(lens: seq<nat>, simple: nat, extras: Extras, m: nat, tables: Tables, meta: seq<Meta>, order: seq<nat>,
                                         sym: nat, buffer: nat)
    requires Built(lens, simple, extras, m, tables, meta, order) && !Wide(lens, m)
    requires sym < |lens| && lens[sym] >= 1 && StartsWith(buffer, lens, sym)
    ensures Lookup(tables, 0, LookupBits(lens, m), buffer) == SymbolResult(sym, simple, extras, lens[sym])
  {
    hide Padded, Counts, Full, Finished, Longest, Shortest, Lookup, ToBits, Count;
    var ctx := CodeContext(lens, m, Coding(order, simple, extras));
    var s := SlotOf(lens, sym);
    SymbolIsSlot(lens, sym);
    NoneOversize(lens, simple, extras, m, tables, meta, order);
    LookupWord(ctx, tables, meta, s, buffer);
    assert Listed(lens, order, sym);
  }

  lemma {:induction false} SymbolIsSlot(lens: seq<nat>, sym: nat)
    requires LengthsOk(lens) && sym < |lens| && lens[sym] >= 1
    ensures IsSlot(Padded(lens), MaxLen(lens), SlotOf(lens, sym))
    ensures Place(Padded(lens), SlotOf(lens, sym)) == Place(Counts(lens), SlotOf(lens, sym))
  {
    UsedLength(lens, sym);
    SymbolSlots(lens, sym, sym);
    PaddedCodes(lens, lens[sym]);
  }

  /** Exactly then: all code words decode if and only if no subtree is wide.  If one is,
      the all-ones code of the longest length is the one that is lost. */
  lemma {:induction false} DecodesAllIffNotWide(lens: seq<nat>, simple: nat, extras: Extras, m: nat, tables: Tables, meta: seq<Meta>, order: seq<nat>)
    requires Built(lens, simple, extras, m, tables, meta, order)
    ensures var ctx := CodeContext(lens, m, Coding(order, simple, extras));
            (forall s: Slot, buffer: nat :: IsSlot(ctx.c, ctx.g, s) && ToBits(buffer, s.len) == s.Word() ==>
               Lookup(tables, 0, ctx.l, buffer) == AsResult(EntryOf(ctx, s, 0), s.len))
            <==> !Wide(lens, m)
  {
    hide Padded, Counts, Full, Longest, Shortest, Lookup, ToBits, TreeOk, Offset, First;
    var ctx := CodeContext(lens, m, Coding(order, simple, extras));
    if !Wide(lens, m) {
      NoneOversize(lens, simple, extras, m, tables, meta, order);
      forall s: Slot, buffer: nat | IsSlot(ctx.c, ctx.g, s) && ToBits(buffer, s.len) == s.Word()
        ensures Lookup(tables, 0, ctx.l, buffer) == AsResult(EntryOf(ctx, s, 0), s.len)
      {
        LookupWord(ctx, tables, meta, s, buffer);
      }
    } else {
      var last := Slot(ctx.g, Pow2(ctx.g) - 1);
      LastWord(ctx);
      var buffer := Lsb(Ones(ctx.g));
      ToBitsOfLsb(Ones(ctx.g));
      LastLost(ctx, tables, meta, buffer);
      assert IsSlot(ctx.c, ctx.g, last) && ToBits(buffer, last.len) == last.Word();
    }
  }

  lemma {:induction false} LastLost(ctx: Context, tables: Tables, meta: seq<Meta>, buffer: nat)
    requires ContextOk(ctx) && Finished(ctx, tables, meta) && meta != [] && ctx.g <= BMAX && WideSubtree(ctx.c, ctx.g, ctx.l)
    requires ToBits(buffer, ctx.g) == Ones(ctx.g)
    ensures Lookup(tables, 0, ctx.l, buffer) == Garbage
  {
    hide CellsOk, HighCellsOk, Populated, Full, ToBits, Lookup;
    var stack :| stack != [] && TreeOk(ctx, tables, meta, stack, Slot(ctx.g, Pow2(ctx.g)));
    var w: nat :| WideAt(ctx.c, ctx.g, ctx.l, w);
    assert meta[0].prefix == Ones(0);
    OnesLost(ctx, tables, meta, stack, 0, ctx.l, buffer, w);
  }

  // ---------- When nothing can be wide ----------

  /** A wide subtree needs codes of more than 2 l bits. */
  lemma WideIsDeep(c: seq<nat>, g: nat, l: nat)
    requires WideSubtree(c, g, l)
    ensures 2 * l < g
  {
    var w: nat :| WideAt(c, g, l, w);
  }

  /** What the codes from length k on leave free, they fill with at most their number. */
  lemma {:induction false} TailCodes(c: seq<nat>, a: nat, b: nat)
    requires 1 <= a <= b < |c|
    ensures Offset(c, b) + c[b] >= Offset(c, a) + c[a]
    ensures End(c, b) <= Shl(End(c, a) + (Offset(c, b) + c[b] - Offset(c, a) - c[a]), b - a)
    decreases b
  {
    if a < b {
      TailCodes(c, a, b - 1);
      var n := End(c, a) + (Offset(c, b - 1) + c[b - 1] - Offset(c, a) - c[a]);
      ShlSum(n, c[b], b - a);
      assert Shl(n, b - a) == 2 * Shl(n, b - 1 - a);
    }
  }

  lemma {:induction false} WideNeedsCodes(c: seq<nat>, g: nat, l: nat, w: nat)
    requires 1 <= l && g < |c| && WideAt(c, g, l, w) && End(c, g) == Pow2(g) && c[g] > 0
    ensures Offset(c, g) + c[g] > Pow2(l)
  {
    hide Multiple;
    var a := w + l - 1;
    var tail := TailAfter(c, a + 2, g);
    hide Shl, Offset;
    assert End(c, a + 1) == 2 * End(c, a) + c[a + 1];
    assert End(c, a + 2) == 2 * End(c, a + 1) + c[a + 2];
  }

  /** The number of codes longer than b bits, which fill what the others leave. */
  lemma {:induction false} TailAfter(c: seq<nat>, b: nat, g: nat) returns (tail: nat)
    requires 3 <= b <= g < |c| && End(c, g) == Pow2(g) && c[g] > 0
    ensures End(c, b) + tail >= Pow2(b)
    ensures Pow2(b) == 4 * Pow2(b - 2)
    ensures forall l: nat :: 1 <= l ==> Pow2(l) == 2 * Pow2(l - 1)
    ensures c[b] + tail >= 1 && Offset(c, g) + c[g] >= c[b - 1] + c[b] + tail
  {
    TailCodes(c, b, g);
    tail := Offset(c, g) + c[g] - Offset(c, b) - c[b];
    ShlAdd(1, b, g - b);
    ShlOrder(End(c, b) + tail, Pow2(b), g - b);
    assert Offset(c, b) == Offset(c, b - 1) + c[b - 1];
    if g > b { OffsetRanges(c, b, g); }
    assert Pow2(b) == 2 * Pow2(b - 1) && Pow2(b - 1) == 2 * Pow2(b - 2);
  }

  /** A complete code with a wide subtree has more than 2^l symbols.  So the three callers
      are safe: 19 symbols at 7 bits, 288 at 9 and 30 at 6. */
  lemma {:induction false} FewSymbolsNotWide(lens: seq<nat>, m: nat)
    requires LengthsOk(lens) && Complete(lens) && |lens| <= Pow2(LookupBits(lens, m))
    ensures !Wide(lens, m)
  {
    hide Counts, Longest, Shortest, Count, LookupBits, Padded, Pow2, WideAt, End;
    var c, g, l := Padded(lens), MaxLen(lens), LookupBits(lens, m);
    PaddedOfComplete(lens);
    TotalCount(lens, g + 1);
    if WideSubtree(c, g, l) {
      var w: nat :| WideAt(c, g, l, w);
      WideNeedsCodes(c, g, l, w);
    }
  }

  lemma PaddedOfComplete(lens: seq<nat>)
    requires LengthsOk(lens) && Complete(lens)
    ensures Padded(lens) == Counts(lens) && Padded(lens)[MaxLen(lens)] > 0
    ensures End(Padded(lens), MaxLen(lens)) == Pow2(MaxLen(lens))
  {
    assert Padded(lens) == Counts(lens);
  }

  // ---------- A code that is lost ----------

  /** A complete code of one, two and twice three bits. */
  function Uneven(): (lens: seq<nat>)
    ensures |lens| == 4
  {
    [1, 2, 3, 3]
  }

  lemma UnevenCount(k: nat)
    ensures Count(Uneven(), k) == if k == 3 then 2 else if k == 1 || k == 2 then 1 else 0
  {
    var lens := Uneven();
    var one, two, three := [1], [1, 2], [1, 2, 3];
    assert one[..0] == [] && two[..1] == one && three[..2] == two && lens[..3] == three;
    assert Count(one, k) == if k == 1 then 1 else 0;
    assert Count(two, k) == if k == 1 || k == 2 then 1 else 0;
  }

  lemma UnevenCounts()
    ensures var c := Counts(Uneven()); c[1] == 1 && c[2] == 1 && c[3] == 2 && forall j :: 3 < j <= BMAX ==> c[j] == 0
  {
    forall k: nat
      ensures Count(Uneven(), k) == if k == 3 then 2 else if k == 1 || k == 2 then 1 else 0
    {
      UnevenCount(k);
    }
    hide Count, Uneven;
  }

  lemma FirstPowers()
    ensures Pow2(0) == 1 && Pow2(1) == 2 && Pow2(2) == 4 && Pow2(3) == 8
  {
    assert Shl(1, 3) == 2 * Shl(1, 2);
  }

  /** Looked up one bit at a time, its last subtree is wide: the condition of
      DecodesAllIffNotWide does fail. */
  lemma WideExists()
    ensures LengthsOk(Uneven()) && Complete(Uneven()) && !Oversubscribed(Uneven()) && Wide(Uneven(), 1)
    ensures MaxLen(Uneven()) == 3 && LookupBits(Uneven(), 1) == 1 && Padded(Uneven()) == Counts(Uneven())
  {
    hide Counts, Uneven, Longest, Shortest, Pow2, LengthsOk, Padded, Complete, Multiple;
    UnevenLengths();
    UnevenCode();
    FirstPowers();
    WideHere(Counts(Uneven()));
  }

  lemma UnevenLengths()
    ensures LengthsOk(Uneven()) && MaxLen(Uneven()) == 3 && LookupBits(Uneven(), 1) == 1
  {
    var c := Counts(Uneven());
    assert LengthsOk(Uneven());
    hide Counts, Uneven, Longest, Shortest, LengthsOk;
    UnevenCounts();
    LongestIs(c, 3);
    ShortestIs(c, 1);
  }

  lemma UnevenCode()
    ensures var c := Counts(Uneven());
            End(c, 1) == 1 && End(c, 2) == 3 && End(c, 3) == 8 && !Oversubscribed(Uneven()) && Complete(Uneven()) && Padded(Uneven()) == c
  {
    hide Counts, Uneven, Longest, Shortest, LengthsOk, Pow2;
    UnevenCounts();
    UnevenLengths();
    FirstPowers();
    var c := Counts(Uneven());
    assert First(c, 2) == 2 && First(c, 3) == 6;
    OversubscribedEarly(Uneven());
    assert c[3 := c[3]] == c;
  }

  lemma WideHere(c: seq<nat>)
    requires |c| == BMAX + 1 && End(c, 1) == 1
    ensures WideSubtree(c, 3, 1)
  {
    hide End;
    FirstPowers();
    assert WideAt(c, 3, 1, 1);
  }

  /** And the tables built for it lose the last code, 111: its lookup runs into an entry
      that was never set. */
  method LoseLastCode() returns (code: int, tables: Tables, bits: nat)
    ensures code == 0 && StartsWith(7, Uneven(), 3) && Lookup(tables, 0, bits, 7) == Garbage
  {
    hide Counts, Longest, Shortest, Padded, Full, Finished, Sorted, Lookup, Pow2, Uneven, Complete, Oversubscribed;
    var lens := Uneven();
    ghost var meta, order;
    WideExists();
    code, tables, bits, meta, order := HuftBuild(lens, 4, NoExtras, 1, [0, 1, 2, 3]);
    ghost var ctx := CodeContext(lens, 1, Coding(order, 4, NoExtras));
    assert AllCodable(ctx);
    LastIsOnes();
    LastLost(ctx, tables, meta, 7);
  }

  lemma LastIsOnes()
    ensures Ones(3) == ToBits(7, 3) && StartsWith(7, Uneven(), 3)
  {
    var lens := Uneven();
    UnevenCounts();
    assert First(Counts(lens), 2) == 2 && First(Counts(lens), 3) == 6;
    assert lens[..3] == [1, 2, 3] && [1, 2, 3][..2] == [1, 2] && [1, 2][..1] == [1];
    assert Rank(lens, 3) == 1 && SlotOf(lens, 3) == Slot(3, 7);
    assert CodeBits(7, 3) == [true, true, true] == ToBits(7, 3);
  }
}
