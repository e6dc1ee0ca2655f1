/** Building the decoding tables from a list of code lengths: counting, the check for
    oversubscription, sorting the symbols, and filling the tables code by code. */
module HuffmanBuild {
  import opened Bits
  import opened Canonical
  import opened HuffmanTree

  const N_MAX := 288

  // ---------- Width of a new table ----------

  /** No code word below p is longer than w + j bits once the codes up to that length
      use up its subtree. */
  lemma {:induction false} NarrowOk(ctx: Context, p: Bits, j: nat)
    requires Full(ctx.c, ctx.g) && 1 <= |p| + j <= ctx.g
    requires End(ctx.c, |p| + j) >= Shl(Msb(p) + 1, j)
    ensures forall s :: IsSlot(ctx.c, ctx.g, s) && p <= s.Word() ==> s.len <= |p| + j
  {
    hide Shl, Msb, CodeBits, First, End;
    forall s | IsSlot(ctx.c, ctx.g, s) && p <= s.Word()
      ensures s.len <= |p| + j
    {
      if s.len > |p| + j {
        var d := s.len - |p| - j;
        EndBeforeFirst(ctx.c, |p| + j, s.len);
        SlotMsb(ctx.c, ctx.g, s);
        PrefixByInterval(p, s.Word());
        ShlAdd(Msb(p) + 1, j, d);
        ShlOrder(End(ctx.c, |p| + j), Shl(Msb(p) + 1, j), d);
        IsSlotFacts(ctx, s);
      }
    }
  }

  lemma IsSlotFacts(ctx: Context, s: Slot)
    requires IsSlot(ctx.c, ctx.g, s)
    ensures First(ctx.c, s.len) <= s.code < End(ctx.c, s.len)
  {
  }

  /** The first code below p is cur, of k bits and a + 1 codes before the last of them. */
  ghost predicate FirstBelow(ctx: Context, p: Bits, cur: Slot, a: nat) {
    && Full(ctx.c, ctx.g) && 1 <= ctx.l <= ctx.g && IsSlot(ctx.c, ctx.g, cur) && |p| < cur.len
    && cur.code == Shl(Msb(p), cur.len - |p|) && cur.code + a + 1 == End(ctx.c, cur.len)
  }

  /** With the first code shorter than l further bits nothing is oversize. */
  lemma {:induction false} ShortFirst(ctx: Context, p: Bits, cur: Slot, a: nat)
    requires FirstBelow(ctx, p, cur, a) && cur.len - |p| < ctx.l
    ensures !Oversize(ctx, p)
  {
    hide Shl, Msb, CodeBits, First, End, Full;
    var k, w, l := cur.len, |p|, ctx.l;
    if 1 <= w && w + l < ctx.g && k < w + l - 1 {
      var d := w + l - 1 - k;
      EndBeforeFirst(ctx.c, k, w + l - 1);
      ShlAdd(Msb(p), k - w, d);
      ShlOrder(cur.code, End(ctx.c, k), d);
      FirstBeforeEnd(ctx.c, w + l - 1);
    }
  }

  lemma FirstBeforeEnd(c: seq<nat>, k: nat)
    requires 1 <= k < |c|
    ensures First(c, k) <= End(c, k)
  {
  }

  /** With the first code at least l bits further down, a table is oversize unless the
      codes of w + l bits use up the subtree. */
  lemma {:induction false} LongFirst(ctx: Context, p: Bits, cur: Slot, a: nat)
    requires FirstBelow(ctx, p, cur, a) && cur.len - |p| >= ctx.l && 1 <= |p|
    ensures Oversize(ctx, p) <==> cur.len - |p| > ctx.l || a + 1 < Pow2(ctx.l)
  {
    hide Shl, Msb, CodeBits, First, End;
    var k, w, l := cur.len, |p|, ctx.l;
    var d := k - w - l;
    IsSlotFacts(ctx, cur);
    if l + w - 1 >= 1 {
      EndBeforeFirst(ctx.c, w + l - 1, k);
      ShlAdd(Msb(p), l - 1, d + 1);
      ShlOrder(Shl(Msb(p), l - 1), End(ctx.c, w + l - 1), d + 1);
    }
    ShlSum(Msb(p), 1, l);
    ShlOrder(Msb(p), Msb(p) + 1, l);
    if d > 0 {
      EndBeforeFirst(ctx.c, w + l, k);
      ShlAdd(Msb(p), l, d);
      ShlOrder(Shl(Msb(p), l), End(ctx.c, w + l), d);
    } else if a + 1 < Pow2(l) && k == ctx.g {
      MsbBound(p);
      ShlOrder(Pow2(w), Msb(p) + 1, l);
      ShlAdd(1, w, l);
    }
  }

  /** The width chosen for the table below p. */
  method TableBits(ctx: Context, k: nat, w: nat, a: nat, ghost p: Bits) returns (j: nat)
    requires ctx.g <= BMAX && |ctx.c| == BMAX + 1 && |p| == w < k <= ctx.g
    requires a + 1 <= ctx.c[k] && FirstBelow(ctx, p, Slot(k, End(ctx.c, k) - a - 1), a)
    ensures SizeOk(ctx, Meta(p, j))
  {
    hide Shl, Msb, CodeBits, First, End, Oversize;
    ghost var cur := Slot(k, End(ctx.c, k) - a - 1);
    var z := if ctx.g - w > ctx.l then ctx.l else ctx.g - w;
    j := k - w;
    var f := Pow2(j);
    ShlSum(Msb(p), 1, j);
    LastFits(ctx, p);
    if f > a + 1 {
      f := f - (a + 1);
      var xp := k;
      j := j + 1;
      while j < z
        invariant k - w < j && (j <= z || j == k - w + 1) && xp == w + j - 1
        invariant xp <= ctx.g ==> f + End(ctx.c, xp) == Shl(Msb(p) + 1, j - 1)
        invariant f > 0
      {
        xp := xp + 1;
        f := 2 * f;
        DoubleStep(ctx.c, p, j, xp);
        if f <= ctx.c[xp] {
          break;
        }
        f := f - ctx.c[xp];
        j := j + 1;
      }
    }
    if w + j <= ctx.g && End(ctx.c, w + j) >= Shl(Msb(p) + 1, j) {
      NarrowOk(ctx, p, j);
    }
    if k - w < ctx.l {
      ShortFirst(ctx, p, cur, a);
    } else if p != [] {
      LongFirst(ctx, p, cur, a);
    }
  }

  lemma DoubleStep(c: seq<nat>, p: Bits, j: nat, xp: nat)
    requires 1 <= j && 2 <= xp < |c|
    ensures End(c, xp) == 2 * End(c, xp - 1) + c[xp]
    ensures Shl(Msb(p) + 1, j) == 2 * Shl(Msb(p) + 1, j - 1)
  {
  }

  lemma LastFits(ctx: Context, p: Bits)
    requires Full(ctx.c, ctx.g) && |p| <= ctx.g
    ensures End(ctx.c, ctx.g) >= Shl(Msb(p) + 1, ctx.g - |p|)
  {
    MsbBound(p);
    ShlOrder(Pow2(|p|), Msb(p) + 1, ctx.g - |p|);
    ShlAdd(1, |p|, ctx.g - |p|);
  }

  // ---------- The next code ----------

  /** Adding one to the number a bit string stands for, from its last bit backwards. */
  function NextBits(c: Bits): (d: Bits)
    ensures |d| == |c|
  {
    if c == [] then []
    else if c[|c| - 1] then NextBits(c[..|c| - 1]) + [false]
    else c[..|c| - 1] + [true]
  }

  lemma {:induction false} NextBitsIsNextCode(v: nat, k: nat)
    ensures NextBits(CodeBits(v, k)) == CodeBits(v + 1, k)
  {
    if k != 0 {
      NextBitsIsNextCode(v / 2, k - 1);
      var c := CodeBits(v, k);
      assert c[..k - 1] == CodeBits(v / 2, k - 1) && c[k - 1] == (v % 2 == 1);
      assert v % 2 == 1 ==> (v + 1) / 2 == v / 2 + 1;
      assert v % 2 == 0 ==> (v + 1) / 2 == v / 2;
    }
  }

  /** Clearing trailing ones and then setting one bit is adding one. */
  lemma {:induction false} NextBitsByFlips(c: Bits, p: nat)
    requires p <= |c| && c[p..] == Ones(|c| - p)
    ensures NextBits(c) == NextBits(c[..p]) + Zeros(|c| - p)
  {
    if p < |c| {
      var front := c[..|c| - 1];
      assert c[|c| - 1] == c[p..][|c| - 1 - p];
      assert front[p..] == c[p..][..|c| - 1 - p] == Ones(|front| - p);
      NextBitsByFlips(front, p);
      assert front[..p] == c[..p];
      assert Zeros(|front| - p) + [false] == Zeros(|c| - p);
    } else {
      assert c[..p] == c;
    }
  }

  /** Between the flips: bits from p on of c were ones and have been cleared. */
  ghost predicate Flipped(c: Bits, d: Bits, p: nat) {
    p <= |c| == |d| && d == c[..p] + Zeros(|c| - p) && c[p..] == Ones(|c| - p)
  }

  lemma FlipDown(c: Bits, d: Bits, p: nat)
    requires p < |c| && Flipped(c, d, p + 1)
    ensures d[p] == c[p] && Shr(Lsb(d), p) % 2 == Bit(c[p])
    ensures c[p] ==> Lsb(d) == Lsb(d[p := false]) + Pow2(p) && Flipped(c, d[p := false], p)
    ensures !c[p] ==> Lsb(d[p := true]) == Lsb(d) + Pow2(p) && d[p := true] == NextBits(c)
  {
    LsbSet(d, p, !c[p]);
    assert d[p := false] == c[..p] + Zeros(|c| - p);
    if c[p] {
      assert c[p..] == [true] + c[p + 1..];
    } else {
      NextBitsByFlips(c, p + 1);
      assert c[..p + 1][..p] == c[..p];
      assert d[p := true] == (c[..p] + [true]) + Zeros(|c| - p - 1);
    }
  }

  /** The backwards increment of the k-bit code i: i stays the bit-reversed canonical code. */
  method IncrementBackwards(i: nat, k: nat, ghost code: nat) returns (i': nat)
    requires 1 <= k && i == Lsb(CodeBits(code, k))
    ensures i' == Lsb(CodeBits(code + 1, k))
  {
    hide Lsb, Shr, Pow2, CodeBits, NextBits, Flipped;
    ghost var c := CodeBits(code, k);
    ghost var d := c;
    NextBitsIsNextCode(code, k);
    i' := i;
    var p := k - 1;
    NothingFlipped(c);
    FlipDown(c, d, p);
    while p >= 0 && Shr(i', p) % 2 == 1
      invariant -1 <= p < k && |d| == k && i' == Lsb(d) && Flipped(c, d, p + 1)
      invariant p >= 0 ==> Shr(i', p) % 2 == Bit(c[p])
    {
      FlipDown(c, d, p);
      i' := i' - Pow2(p);
      d := d[p := false];
      p := p - 1;
      if p >= 0 { FlipDown(c, d, p); }
    }
    if p >= 0 {
      FlipDown(c, d, p);
      i' := i' + Pow2(p);
    } else {
      AllFlipped(c, d);
    }
  }

  lemma NothingFlipped(c: Bits)
    ensures Flipped(c, c, |c|)
  {
  }

  lemma AllFlipped(c: Bits, d: Bits)
    requires Flipped(c, d, 0)
    ensures d == NextBits(c)
  {
    NextBitsByFlips(c, 0);
    assert c[..0] == [];
  }

  // ---------- Filling the cells of one code word ----------

  method FillCells(tables: Tables, ghost ctx: Context, ghost meta: seq<Meta>, q: nat, z: nat, i: nat, k: nat, w: nat, r: Huft, ghost cur: Slot)
    returns (tables': Tables)
    requires Shaped(tables, meta) && ContextOk(ctx) && IsSlot(ctx.c, ctx.g, cur)
    requires q < |tables| && z == |tables[q]| && w == |meta[q].prefix| && meta[q].prefix <= cur.Word()
    requires w < k == cur.len <= w + meta[q].size && i == Lsb(cur.Word())
    requires r == EntryOf(ctx, cur, k - w)
    ensures Shaped(tables', meta) && Filled(ctx, tables, meta, q, cur, tables')
    ensures |tables'| == |tables| && |tables'[q]| == z
  {
    hide Shl, Lsb, CodeBits, First, End, Full, EntryOf;
    tables' := tables;
    var f := Pow2(k - w);
    var j := Shr(i, w);
    ghost var rest := cur.Word()[w..];
    LsbSplit(cur.Word(), w);
    LsbBound(rest);
    MaskOfSmall(j, k - w);
    ghost var base := j;
    forall n: nat {:trigger Mask(n, k - w)} | n < base
      ensures Mask(n, k - w) != base
    {
      MaskOfSmall(n, k - w);
    }
    while j < z
      invariant |tables'| == |tables| && |tables'[q]| == z
      invariant forall t :: 0 <= t < |tables| && t != q ==> tables'[t] == tables[t]
      invariant Mask(j, k - w) == base
      invariant forall n: nat :: n < z ==> tables'[q][n] == if n < j && Mask(n, k - w) == base then r else tables[q][n]
    {
      tables' := Put(tables', q, j, r);
      forall n: nat {:trigger Mask(n, k - w)} | j < n <= j + f
        ensures Mask(n, k - w) == base <==> n == j + f
      {
        MaskPeriod(j, n, k - w);
      }
      j := j + f;
    }
    forall y: Bits | |y| == meta[q].size
      ensures Fills(meta[q], cur, y) ==> CellIs(tables'[q], y, r)
      ensures !Fills(meta[q], cur, y) ==> Lsb(y) < z && tables'[q][Lsb(y)] == tables[q][Lsb(y)]
    {
      LsbBound(y);
      FilledCells(meta[q], cur, y);
    }
  }

  // ---------- The fill loops ----------

  /** The working variables of the build: the tables, the stack of table numbers u, the
      code stack x, the level h, the bits w before the current table, and the current
      table q with its number of entries z. */
  datatype Work = Work(tables: Tables, u: seq<nat>, x: seq<nat>, h: int, w: int, q: nat, z: nat) {
    function Stack(): seq<nat>
      requires -1 <= h < |u|
    {
      u[..h + 1]
    }
  }

  /** The working variables describe the tables on the way of the current code. */
  ghost predicate Tracks(ctx: Context, st: Work, meta: seq<Meta>) {
    && |st.u| == BMAX && |st.x| == BMAX + 1 && -1 <= st.h < BMAX && st.x[0] == 0
    && (st.h == -1 ==> st.w + ctx.l == 0 && st.tables == [] && meta == [])
    && (st.h >= 0 ==> st.u[st.h] < |meta| && st.w == |meta[st.u[st.h]].prefix|)
    && (forall n :: 0 <= n <= st.h ==> st.u[n] < |meta| && st.x[n] == Lsb(meta[st.u[n]].prefix))
  }

  ghost predicate At(ctx: Context, st: Work, meta: seq<Meta>, cur: Slot) {
    && Tracks(ctx, st, meta) && Resting(ctx, st.tables, meta, st.Stack(), cur)
  }

  /** Unless code k needs a further table anyway, q and z are those of the top of the stack:
      after backing up they are stale, but then a further table is always opened. */
  ghost predicate Current(ctx: Context, st: Work, k: nat) {
    && st.h < |st.u| && st.w < k
    && (st.h >= 0 && k <= st.w + ctx.l ==> st.q == st.u[st.h] < |st.tables| && st.z == |st.tables[st.q]|)
  }

  /** Opens one more table for the code cur, below the current one if there is one. */
  method OpenTable(ctx: Context, st: Work, ghost meta: seq<Meta>, k: nat, a: nat, i: nat, ghost cur: Slot)
    returns (st': Work, ghost meta': seq<Meta>)
    requires ctx.g <= BMAX && |ctx.c| == BMAX + 1
    requires At(ctx, st, meta, cur) && IsSlot(ctx.c, ctx.g, cur) && cur.len == k && i == Lsb(cur.Word())
    requires cur.code + a + 1 == End(ctx.c, k) && k > st.w + ctx.l
    ensures At(ctx, st', meta', cur) && st'.w == st.w + ctx.l && st'.h == st.h + 1
    ensures Current(ctx, st', k)
  {
    hide Shl, Lsb, CodeBits, First, End, Full, TreeOk, PathOk, Known, SizeOk, Oversize, Tracks, FirstBelow, ContextOk;
    var h := st.h + 1;
    var w := st.w + ctx.l;
    TopFacts(ctx, st, meta, cur);
    ghost var stack := st.Stack();
    ghost var p := cur.Word()[..w];
    BelowTop(ctx, st, meta, cur, a, p);
    var j := TableBits(ctx, k, w, a, p);
    var z := Pow2(j);
    var tables := AddTable(st.tables, j);
    var q := |st.tables|;
    var u := st.u[h := q];
    var x := st.x;
    meta' := meta + [Meta(p, j)];
    if h != 0 {
      x := x[h := i];
      var cell := Shr(i, w - ctx.l);
      LinkCell(ctx, st.tables, meta, stack, cur, p);
      tables := Put(tables, u[h - 1], cell, Huft(16 + j, ctx.l, q));
      LinkStep(ctx, st.tables, meta, stack, cur, p, j, tables, meta');
    } else {
      assert p == [] && stack + [q] == [0] && meta' == [Meta([], j)] && tables == AddTable([], j);
      RootStep(ctx, cur, j);
    }
    hide Ready;
    st' := Work(tables, u, x, h, w, q, z);
    assert st'.Stack() == stack + [q];
    OpenedTracks(ctx, st, meta, st', meta', i, p, j);
    ReadyIsResting(ctx, tables, meta', st'.Stack(), cur);
  }

  lemma TopFacts(ctx: Context, st: Work, meta: seq<Meta>, cur: Slot)
    requires At(ctx, st, meta, cur)
    ensures |st.u| == BMAX && |st.x| == BMAX + 1 && -1 <= st.h < BMAX && |st.tables| == |meta|
    ensures 1 <= ctx.l && Full(ctx.c, ctx.g) && ctx.l <= ctx.g && Shaped(st.tables, meta)
    ensures st.h == -1 ==> st.w + ctx.l == 0 && st.Stack() == [] && st.tables == [] && meta == []
    ensures st.h >= 0 ==> st.Stack() != [] && st.Stack()[|st.Stack()| - 1] == st.u[st.h] < |meta|
    ensures st.h >= 0 ==> st.w == Depth(meta, st.Stack()) && st.h <= st.w
    ensures IsSlot(ctx.c, ctx.g, cur) ==> Ready(ctx, st.tables, meta, st.Stack(), cur)
  {
    hide CellsOk, HighCellsOk, SizeOk, Populated, LinksTo, CodeBits, Multiple;
    if st.h >= 0 {
      LevelDepth(ctx, st.tables, meta, st.Stack(), cur.Word(), st.h);
    }
    if IsSlot(ctx.c, ctx.g, cur) {
      RestingIsReady(ctx, st.tables, meta, st.Stack(), cur);
    }
  }

  lemma {:induction false} LevelDepth(ctx: Context, tables: Tables, meta: seq<Meta>, stack: seq<nat>, word: Bits, h: nat)
    requires Shaped(tables, meta) && PathOk(ctx, tables, meta, stack, word) && ctx.l >= 1 && h < |stack|
    ensures h <= |meta[stack[h]].prefix|
  {
    if h > 0 {
      LevelDepth(ctx, tables, meta, stack, word, h - 1);
      assert |meta[stack[h - 1 + 1]].prefix| == |meta[stack[h - 1]].prefix| + ctx.l;
    }
  }

  lemma ReadyIsResting(ctx: Context, tables: Tables, meta: seq<Meta>, stack: seq<nat>, cur: Slot)
    requires Ready(ctx, tables, meta, stack, cur)
    ensures Resting(ctx, tables, meta, stack, cur)
  {
  }

  lemma OpenedTracks(ctx: Context, st: Work, meta: seq<Meta>, st': Work, meta': seq<Meta>, i: nat, p: Bits, j: nat)
    requires Tracks(ctx, st, meta) && ctx.l >= 1 && meta' == meta + [Meta(p, j)] && |meta| == |st.tables|
    requires st'.h == st.h + 1 < BMAX && st'.w == st.w + ctx.l == |p| && st'.u == st.u[st'.h := |meta|]
    requires st'.x == if st'.h != 0 then st.x[st'.h := i] else st.x
    requires Lsb(p) == if st'.h != 0 then i else 0
    ensures Tracks(ctx, st', meta')
  {
  }

  lemma EmptyLsb()
    ensures Lsb([]) == 0
  {
  }

  /** The code cur is the first one below the new table's prefix. */
  lemma {:induction false} BelowTop(ctx: Context, st: Work, meta: seq<Meta>, cur: Slot, a: nat, p: Bits)
    requires At(ctx, st, meta, cur) && IsSlot(ctx.c, ctx.g, cur) && cur.code + a + 1 == End(ctx.c, cur.len)
    requires cur.len > st.w + ctx.l >= 0 && p == cur.Word()[..st.w + ctx.l] && cur.len <= BMAX
    ensures FirstBelow(ctx, p, cur, a) && a + 1 <= ctx.c[cur.len]
    ensures Lsb(p) == if st.h >= 0 then Lsb(cur.Word()) else 0
    ensures st.h >= 0 ==> cur.Word()[|p|..] == Zeros(cur.len - |p|)
    ensures st.h + 1 < BMAX
  {
    hide CellsOk, HighCellsOk, SizeOk, Populated, Multiple, Oversize, PathOk, Known, Tracks, Shl, Lsb, CodeBits, Msb, First;
    TopFacts(ctx, st, meta, cur);
    SlotMsb(ctx.c, ctx.g, cur);
    if st.h >= 0 {
      NoneUnder(ctx, st.tables, meta, st.Stack(), cur, p);
    } else {
      assert p == [];
      assert forall s :: !Done(ctx, cur, s);
    }
    hide TreeOk, Resting, Ready;
    RestIsZero(ctx, cur, p);
    MsbOfZeros(cur.Word(), |p|);
    assert cur.Word() == p + Zeros(cur.len - |p|);
    LsbOfExtended(p, cur.len - |p|);
    if st.h < 0 { EmptyLsb(); }
  }

  /** Places the code cur: further tables as needed, then its cells. */
  method PlaceCode(ctx: Context, st: Work, ghost meta: seq<Meta>, k: nat, a: nat, i: nat, r: Huft, ghost cur: Slot)
    returns (st': Work, ghost meta': seq<Meta>)
    requires ctx.g <= BMAX && |ctx.c| == BMAX + 1
    requires At(ctx, st, meta, cur) && IsSlot(ctx.c, ctx.g, cur) && cur.len == k && i == Lsb(cur.Word())
    requires cur.code + a + 1 == End(ctx.c, k)
    requires Current(ctx, st, k)
    requires r == EntryOf(ctx, cur, 0)
    ensures Tracks(ctx, st', meta') && 0 <= st'.h && st'.w < k <= st'.w + ctx.l && Current(ctx, st', k)
    ensures var next := Slot(cur.len, cur.code + 1);
            TreeOk(ctx, st'.tables, meta', st'.Stack(), next) && PathOk(ctx, st'.tables, meta', st'.Stack(), cur.Word())
            && Known(meta', st'.Stack(), cur.Word()) && forall t: nat :: t < |meta'| ==> Populated(ctx, meta'[t], next)
  {
    hide Shl, Lsb, CodeBits, First, End, Full, TreeOk, SizeOk, Populated, EntryOf, Filled, Tracks, PathOk, Known, Shaped;
    st', meta' := st, meta;
    TopFacts(ctx, st, meta, cur);
    while k > st'.w + ctx.l
      invariant At(ctx, st', meta', cur)
      invariant Current(ctx, st', k) && ctx.l >= 1
      decreases k - st'.w
    {
      st', meta' := OpenTable(ctx, st', meta', k, a, i, cur);
    }
    TopFacts(ctx, st', meta', cur);
    var entry := WithBits(r, k - st'.w);
    EntryBits(ctx, cur, k - st'.w);
    ghost var stack := st'.Stack();
    ReadyFacts(ctx, st'.tables, meta', stack, cur);
    var tables := FillCells(st'.tables, ctx, meta', st'.q, st'.z, i, k, st'.w, entry, cur);
    FillStep(ctx, st'.tables, meta', stack, cur, tables);
    TracksTables(ctx, st', meta', tables);
    st' := st'.(tables := tables);
  }

  lemma TracksTables(ctx: Context, st: Work, meta: seq<Meta>, tables: Tables)
    requires Tracks(ctx, st, meta) && st.h >= 0
    ensures Tracks(ctx, st.(tables := tables), meta)
  {
  }

  function WithBits(r: Huft, b: nat): Huft {
    if r.Huft? then r.(b := b) else r
  }

  lemma EntryBits(ctx: Context, s: Slot, b: nat)
    requires 1 <= s.len < |ctx.c|
    ensures WithBits(EntryOf(ctx, s, 0), b) == EntryOf(ctx, s, b)
  {
  }

  lemma ReadyFacts(ctx: Context, tables: Tables, meta: seq<Meta>, stack: seq<nat>, cur: Slot)
    requires Ready(ctx, tables, meta, stack, cur) && stack != []
    requires stack[|stack| - 1] < |meta| && cur.len <= Depth(meta, stack) + ctx.l
    ensures var top := meta[stack[|stack| - 1]];
            cur.len <= |top.prefix| + top.size && top.prefix <= cur.Word()
    ensures ContextOk(ctx) && Known(meta, stack, cur.Word())
  {
    hide CellsOk, HighCellsOk, Populated, LinksTo, Known, Full;
    assert SizeOk(ctx, meta[stack[|stack| - 1]]);
  }

  /** Leaves, from the top, the tables whose prefix the code i does not have. */
  method Leave(ctx: Context, st: Work, ghost meta: seq<Meta>, i: nat, ghost word: Bits, ghost word': Bits) returns (h: int, w: int)
    requires Tracks(ctx, st, meta) && 0 <= st.h && i == Lsb(word') && |word'| == |word| >= st.w && 1 <= ctx.l
    requires Shaped(st.tables, meta) && PathOk(ctx, st.tables, meta, st.Stack(), word)
    ensures 0 <= h <= st.h && w == |meta[st.u[h]].prefix| && meta[st.u[h]].prefix <= word'
    ensures forall n :: h < n <= st.h ==> !(meta[st.u[n]].prefix <= word')
    ensures h < st.h ==> w + ctx.l <= st.w
  {
    hide Lsb, Mask, LinksTo, Pow2;
    h, w := st.h, st.w;
    ghost var stack := st.Stack();
    SamePrefix(meta[st.u[h]].prefix, word');
    while Mask(i, w) != st.x[h]
      invariant 0 <= h <= st.h && w == |meta[st.u[h]].prefix| <= st.w
      invariant h < st.h ==> w + ctx.l <= st.w
      invariant forall n :: h < n <= st.h ==> !(meta[st.u[n]].prefix <= word')
      invariant Mask(i, w) == st.x[h] <==> meta[st.u[h]].prefix <= word'
      decreases h
    {
      PathStep(ctx, st, meta, word, h, word');
      h := h - 1;
      w := w - ctx.l;
      SamePrefix(meta[st.u[h]].prefix, word');
    }
  }

  lemma PathStep(ctx: Context, st: Work, meta: seq<Meta>, word: Bits, h: nat, word': Bits)
    requires Tracks(ctx, st, meta) && 0 <= h <= st.h && Shaped(st.tables, meta)
    requires PathOk(ctx, st.tables, meta, st.Stack(), word) && !(meta[st.u[h]].prefix <= word')
    ensures h >= 1 && |meta[st.u[h]].prefix| == |meta[st.u[h - 1]].prefix| + ctx.l
  {
    hide LinksTo;
    var stack := st.Stack();
    assert stack[h] == st.u[h] && stack[0] == st.u[0];
    if h >= 1 {
      assert stack[h - 1] == st.u[h - 1];
      assert |meta[stack[h - 1 + 1]].prefix| == |meta[stack[h - 1]].prefix| + ctx.l;
    }
  }

  /** Advances to the next code and leaves the tables that it does not share. */
  method Advance(ctx: Context, st: Work, ghost meta: seq<Meta>, k: nat, i: nat, ghost cur: Slot) returns (st': Work, i': nat)
    requires IsSlot(ctx.c, ctx.g, cur) && cur.len == k && i == Lsb(cur.Word())
    requires Tracks(ctx, st, meta) && 0 <= st.h && st.w < k <= st.w + ctx.l && Current(ctx, st, k)
    requires var next := Slot(cur.len, cur.code + 1);
             TreeOk(ctx, st.tables, meta, st.Stack(), next) && PathOk(ctx, st.tables, meta, st.Stack(), cur.Word())
             && Known(meta, st.Stack(), cur.Word()) && forall t: nat :: t < |meta| ==> Populated(ctx, meta[t], next)
    ensures At(ctx, st', meta, Slot(k, cur.code + 1)) && st'.h >= 0
    ensures i' == Lsb(Slot(k, cur.code + 1).Word())
    ensures Current(ctx, st', k)
  {
    hide Shl, Lsb, Mask, CodeBits, First, End, Full, TreeOk, SizeOk, Populated, Known, LinksTo, Pow2, PathOk;
    ghost var stack := st.Stack();
    TreeFacts(ctx, st.tables, meta, stack, Slot(cur.len, cur.code + 1));
    ghost var word' := Slot(k, cur.code + 1).Word();
    i' := IncrementBackwards(i, k, cur.code);
    var h, w := Leave(ctx, st, meta, i', cur.Word(), word');
    BackUp(ctx, st.tables, meta, stack, cur, h + 1);
    st' := st.(h := h, w := w);
    assert st'.Stack() == stack[..h + 1];
  }

  lemma TreeFacts(ctx: Context, tables: Tables, meta: seq<Meta>, stack: seq<nat>, cur: Slot)
    requires TreeOk(ctx, tables, meta, stack, cur)
    ensures Shaped(tables, meta) && ctx.l >= 1
  {
  }

  lemma SamePrefix(p: Bits, word: Bits)
    requires |p| <= |word|
    ensures Mask(Lsb(word), |p|) == Lsb(p) <==> p <= word
  {
    LsbSplit(word, |p|);
    hide Lsb, Mask;
    var q := word[..|p|];
    if Lsb(q) == Lsb(p) {
      LsbInjective(q, p);
    }
    assert p <= word <==> q == p;
  }

  // ---------- All code words ----------

  /** Places of consecutive code words are consecutive. */
  lemma PlaceNext(c: seq<nat>, k: nat, code: nat)
    requires 1 <= k < |c| - 1
    ensures Place(c, Slot(k, code + 1)) == Place(c, Slot(k, code)) + 1
    ensures Place(c, Slot(k + 1, First(c, k + 1))) == Place(c, Slot(k, End(c, k)))
  {
  }

  ghost predicate AllCodable(ctx: Context) {
    forall s :: IsSlot(ctx.c, ctx.g, s) ==> Codable(ctx.coding, Place(ctx.c, s))
  }

  ghost predicate CodableBefore(ctx: Context, cur: Slot) {
    forall s :: Done(ctx, cur, s) ==> Codable(ctx.coding, Place(ctx.c, s))
  }

  /** Where the order points into the extras, it points inside them. */
  ghost predicate InExtras(coding: Coding) {
    && (coding.extras.Extras? ==> |coding.extras.base| == |coding.extras.bits|)
    && (coding.extras.Extras? ==> forall i :: 0 <= i < |coding.order| ==>
          coding.order[i] < coding.simple || coding.order[i] - coding.simple > 30 || coding.order[i] - coding.simple < |coding.extras.base|)
  }

  lemma {:induction false} NoCodesBelow(c: seq<nat>, kmin: nat, k: nat)
    requires 1 <= k <= kmin < |c| && forall j :: 1 <= j < kmin ==> c[j] == 0
    ensures First(c, k) == 0 && Offset(c, k) == 0
  {
    if k > 1 { NoCodesBelow(c, kmin, k - 1); }
  }

  lemma {:induction false} StartState(ctx: Context, kmin: nat, st: Work)
    requires ContextOk(ctx) && 1 <= kmin <= ctx.g && forall j :: 1 <= j < kmin ==> ctx.c[j] == 0
    requires st.h == -1 && |st.u| == BMAX && |st.x| == BMAX + 1 && st.x[0] == 0 && st.w + ctx.l == 0 && st.tables == []
    ensures At(ctx, st, [], Slot(kmin, First(ctx.c, kmin)))
    ensures Lsb(Slot(kmin, First(ctx.c, kmin)).Word()) == 0 && Place(ctx.c, Slot(kmin, First(ctx.c, kmin))) == 0
    ensures CodableBefore(ctx, Slot(kmin, First(ctx.c, kmin)))
  {
    NoCodesBelow(ctx.c, kmin, kmin);
    ZeroCode(kmin);
    assert st.Stack() == [];
    forall s ensures !Done(ctx, Slot(kmin, 0), s) {}
  }

  lemma {:induction false} ZeroCode(k: nat)
    ensures CodeBits(0, k) == Zeros(k) && Lsb(CodeBits(0, k)) == 0
  {
    if k != 0 {
      ZeroCode(k - 1);
    }
    ZerosAreZero(k);
  }

  /** The entry for the next symbol of the order; none if the build must give up. */
  method NextEntry(coding: Coding, p: nat, ghost place: int) returns (ok: bool, r: Huft, p': nat)
    requires InExtras(coding) && 0 <= place && p == (if place < |coding.order| then place else |coding.order|)
    ensures ok <==> Codable(coding, place)
    ensures ok ==> r == EntryAt(coding, place, 0)
    ensures ok ==> p' == if place + 1 < |coding.order| then place + 1 else |coding.order|
  {
    ok, r, p' := true, Unset, p;
    if p >= |coding.order| {
      r := Huft(INVALID_CODE, 0, 0);
    } else if coding.order[p] < coding.simple {
      r := Huft(if coding.order[p] < 256 then 16 else 15, 0, coding.order[p]);
      p' := p + 1;
    } else if coding.extras == NoExtras || coding.order[p] - coding.simple > 30 {
      ok := false;
    } else {
      var n := coding.order[p] - coding.simple;
      r := Huft(coding.extras.bits[n], 0, coding.extras.base[n]);
      p' := p + 1;
    }
  }

  /** Places every code word of one length. */
  method FillLength(ctx: Context, k: nat, st0: Work, ghost meta0: seq<Meta>, i0: nat, p0: nat)
    returns (ok: bool, st: Work, ghost meta: seq<Meta>, i: nat, p: nat)
    requires ctx.g <= BMAX && |ctx.c| == BMAX + 1 && 1 <= k <= ctx.g && InExtras(ctx.coding)
    requires At(ctx, st0, meta0, Slot(k, First(ctx.c, k))) && Current(ctx, st0, k)
    requires i0 == Lsb(Slot(k, First(ctx.c, k)).Word())
    requires var place := Place(ctx.c, Slot(k, First(ctx.c, k)));
             p0 == if place < |ctx.coding.order| then place else |ctx.coding.order|
    requires CodableBefore(ctx, Slot(k, First(ctx.c, k)))
    ensures !ok ==> !AllCodable(ctx)
    ensures ok ==> At(ctx, st, meta, Slot(k, End(ctx.c, k))) && Current(ctx, st, k) && i == Lsb(Slot(k, End(ctx.c, k)).Word())
    ensures ok ==> var place := Place(ctx.c, Slot(k, End(ctx.c, k)));
                   p == if place < |ctx.coding.order| then place else |ctx.coding.order|
    ensures ok ==> CodableBefore(ctx, Slot(k, End(ctx.c, k)))
  {
    hide At, Current, Shl, Lsb, CodeBits, Full, TreeOk, PathOk, Known, Populated, Tracks, InExtras, EntryAt, EntryOf, Codable;
    ok, st, meta, i, p := true, st0, meta0, i0, p0;
    var a := ctx.c[k];
    while a != 0
      invariant a <= ctx.c[k]
      invariant var cur := Slot(k, End(ctx.c, k) - a);
                At(ctx, st, meta, cur) && Current(ctx, st, k) && i == Lsb(cur.Word())
                && p == (if Place(ctx.c, cur) < |ctx.coding.order| then Place(ctx.c, cur) else |ctx.coding.order|)
                && CodableBefore(ctx, cur)
    {
      ghost var cur := Slot(k, End(ctx.c, k) - a);
      a := a - 1;
      var fine, r, p' := NextEntry(ctx.coding, p, Place(ctx.c, cur));
      assert IsSlot(ctx.c, ctx.g, cur);
      if !fine {
        ok := false;
        return;
      }
      p := p';
      assert EntryOf(ctx, cur, 0) == EntryAt(ctx.coding, Place(ctx.c, cur), 0) by { EntryOfAt(ctx, cur); }
      st, meta := PlaceCode(ctx, st, meta, k, a, i, r, cur);
      st, i := Advance(ctx, st, meta, k, i, cur);
      CodableNext(ctx, cur);
    }
  }

  lemma EntryOfAt(ctx: Context, s: Slot)
    requires 1 <= s.len < |ctx.c|
    ensures EntryOf(ctx, s, 0) == EntryAt(ctx.coding, Place(ctx.c, s), 0)
  {
  }

  lemma CodableNext(ctx: Context, cur: Slot)
    requires CodableBefore(ctx, cur) && IsSlot(ctx.c, ctx.g, cur) && Codable(ctx.coding, Place(ctx.c, cur))
    ensures CodableBefore(ctx, Slot(cur.len, cur.code + 1))
  {
    forall s | Done(ctx, Slot(cur.len, cur.code + 1), s)
      ensures Codable(ctx.coding, Place(ctx.c, s))
    {
      assert s == cur || Done(ctx, cur, s);
    }
  }

  /** The tables for all code words, in canonical order. */
  method FillTables(ctx: Context, kmin: nat) returns (ok: bool, tables: Tables, ghost meta: seq<Meta>)
    requires ContextOk(ctx) && ctx.g <= BMAX && |ctx.c| == BMAX + 1 && InExtras(ctx.coding)
    requires 1 <= kmin <= ctx.g && forall j :: 1 <= j < kmin ==> ctx.c[j] == 0
    ensures ok <==> AllCodable(ctx)
    ensures ok ==> meta != [] && Finished(ctx, tables, meta)
  {
    hide At, Current, Shl, Lsb, CodeBits, Full, TreeOk, PathOk, Known, Populated, Tracks, InExtras, EntryAt, EntryOf, Codable, CodableBefore;
    var st := Work([], seq(BMAX, n => 0), seq(BMAX + 1, n => 0), -1, 0 - ctx.l, 0, 0);
    meta := [];
    var i, p, k := 0, 0, kmin;
    ok, tables := true, [];
    StartState(ctx, kmin, st);
    assert Current(ctx, st, k) by { StartCurrent(ctx, st, k); }
    while k < ctx.g
      invariant kmin <= k <= ctx.g
      invariant At(ctx, st, meta, Slot(k, First(ctx.c, k))) && Current(ctx, st, k)
      invariant i == Lsb(Slot(k, First(ctx.c, k)).Word())
      invariant var place := Place(ctx.c, Slot(k, First(ctx.c, k)));
                p == if place < |ctx.coding.order| then place else |ctx.coding.order|
      invariant CodableBefore(ctx, Slot(k, First(ctx.c, k)))
    {
      ok, st, meta, i, p := FillLength(ctx, k, st, meta, i, p);
      if !ok {
        return;
      }
      LengthDone(ctx, st, meta, k);
      PlaceNext(ctx.c, k, 0);
      k := k + 1;
    }
    ok, st, meta, i, p := FillLength(ctx, k, st, meta, i, p);
    if !ok {
      return;
    }
    AllDone(ctx, st, meta);
    tables := st.tables;
  }

  lemma StartCurrent(ctx: Context, st: Work, k: nat)
    requires st.h == -1 && st.w <= 0 && k >= 1
    ensures Current(ctx, st, k)
  {
  }

  lemma {:induction false} LengthDone(ctx: Context, st: Work, meta: seq<Meta>, k: nat)
    requires 1 <= k < ctx.g < |ctx.c| && At(ctx, st, meta, Slot(k, End(ctx.c, k))) && Current(ctx, st, k)
    requires CodableBefore(ctx, Slot(k, End(ctx.c, k)))
    ensures At(ctx, st, meta, Slot(k + 1, First(ctx.c, k + 1))) && Current(ctx, st, k + 1)
    ensures CodableBefore(ctx, Slot(k + 1, First(ctx.c, k + 1)))
    ensures Lsb(Slot(k + 1, First(ctx.c, k + 1)).Word()) == Lsb(Slot(k, End(ctx.c, k)).Word())
  {
    hide Resting, Shl, Lsb, CodeBits, First, End, Codable, Offset;
    NextLength(ctx, st.tables, meta, st.Stack(), k);
    var word := Slot(k, End(ctx.c, k)).Word();
    assert [false] == Zeros(1);
    LsbOfExtended(word, 1);
    forall s | Done(ctx, Slot(k + 1, First(ctx.c, k + 1)), s)
      ensures Codable(ctx.coding, Place(ctx.c, s))
    {
      DoneNextLength(ctx, k, s);
    }
  }

  lemma {:induction false} AllDone(ctx: Context, st: Work, meta: seq<Meta>)
    requires 1 <= ctx.g < |ctx.c| && At(ctx, st, meta, Slot(ctx.g, End(ctx.c, ctx.g))) && CodableBefore(ctx, Slot(ctx.g, End(ctx.c, ctx.g)))
    ensures AllCodable(ctx) && meta != [] && Finished(ctx, st.tables, meta)
  {
    hide CellsOk, HighCellsOk, SizeOk, Populated, LinksTo, CodeBits, Codable, PathOk;
    var last := Slot(ctx.g, End(ctx.c, ctx.g));
    forall s | IsSlot(ctx.c, ctx.g, s)
      ensures Done(ctx, last, s)
    {
    }
    assert Done(ctx, last, Slot(ctx.g, First(ctx.c, ctx.g)));
    assert st.Stack() != [];
    assert TreeOk(ctx, st.tables, meta, st.Stack(), Slot(ctx.g, Pow2(ctx.g)));
  }
}
