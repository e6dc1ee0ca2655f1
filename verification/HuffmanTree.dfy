/** The linked decoding tables of a canonical code: what a lookup in them does, and the
    steps that keep them right while code words are added in canonical order. */
module HuffmanTree {
  import opened Bits
  import opened Canonical

  /** A table entry.  e <= 15: extra bits (15 also ends the block); 16: a literal;
      17..31 or more: a further table of e - 16 bits, whose number is v; 99: no code. */
  datatype Huft = Unset | Huft(e: nat, b: nat, v: nat)

  type Tables = seq<seq<Huft>>

  const INVALID_CODE := 99

  // ---------- Lookup ----------

  datatype Result = Garbage | Found(e: nat, v: nat, used: nat)

  /** Follows the tables from table t, indexed by `size` bits of the bit buffer.  An entry
      that claims more bits than were looked at would not be decodable. */
  function Lookup(tables: Tables, t: nat, size: nat, buffer: nat): Result
    decreases |tables| - t
  {
    var index := Mask(buffer, size);
    if t >= |tables| || index >= |tables[t]| || tables[t][index] == Unset || tables[t][index].b > size then Garbage
    else
      var r := tables[t][index];
      if r.e <= 16 || r.e == INVALID_CODE then Found(r.e, r.v, r.b)
      else if r.v <= t || r.v >= |tables| || r.e > 16 + BMAX + 1 then Garbage
      else
        match Lookup(tables, r.v, r.e - 16, Shr(buffer, r.b))
        case Garbage => Garbage
        case Found(e, v, used) => Found(e, v, used + r.b)
  }

  // ---------- What an entry should say ----------

  /** Base values and extra bits for the symbols from `simple` on. */
  datatype Extras = NoExtras | Extras(base: seq<nat>, bits: seq<nat>)

  /** The symbols in canonical order, with whatever the array held behind the used ones. */
  datatype Coding = Coding(order: seq<nat>, simple: nat, extras: Extras)

  /** A symbol that entries can be made for; otherwise the build gives up with code 2. */
  predicate Codable(coding: Coding, place: int) {
    place < 0 || place >= |coding.order| || coding.order[place] < coding.simple
    || (coding.extras.Extras? && coding.order[place] - coding.simple <= 30
        && coding.order[place] - coding.simple < |coding.extras.base| == |coding.extras.bits|)
  }

  /** Extra-bit counts must not look like table links. */
  predicate PlainExtras(extras: Extras) {
    extras.Extras? ==> forall i :: 0 <= i < |extras.bits| ==> extras.bits[i] <= 15 || extras.bits[i] == INVALID_CODE
  }

  /** The entry for the code word at a place in the canonical order. */
  function EntryAt(coding: Coding, place: int, b: nat): Huft {
    if !Codable(coding, place) then Unset
    else if place < 0 || place >= |coding.order| then Huft(INVALID_CODE, b, 0)
    else
      var sym := coding.order[place];
      if sym < coding.simple then Huft(if sym < 256 then 16 else 15, b, sym)
      else Huft(coding.extras.bits[sym - coding.simple], b, coding.extras.base[sym - coding.simple])
  }

  // ---------- The tables under construction ----------

  /** The code being built: length counts, longest length, bits per table, entries. */
  datatype Context = Context(c: seq<nat>, g: nat, l: nat, coding: Coding)

  /** The place of a table in the tree: the code bits that lead to it, and its width. */
  datatype Meta = Meta(prefix: Bits, size: nat)

  ghost predicate ContextOk(ctx: Context) {
    && Full(ctx.c, ctx.g) && 1 <= ctx.l <= ctx.g && PlainExtras(ctx.coding.extras)
  }

  ghost predicate Done(ctx: Context, cur: Slot, s: Slot) {
    IsSlot(ctx.c, ctx.g, s) && Before(s, cur)
  }

  function EntryOf(ctx: Context, s: Slot, b: nat): Huft
    requires 1 <= s.len < |ctx.c|
  {
    EntryAt(ctx.coding, Place(ctx.c, s), b)
  }

  ghost predicate Shaped(tables: Tables, meta: seq<Meta>) {
    && |tables| == |meta|
    && (forall t :: 0 <= t < |meta| ==> |tables[t]| == Pow2(meta[t].size))
  }

  /** Cell y of the table is one that code word s decides. */
  ghost predicate Fills(m: Meta, s: Slot, y: Bits) {
    |y| == m.size && s.Word() <= m.prefix + y
  }

  ghost predicate CellIs(table: seq<Huft>, y: Bits, r: Huft) {
    Lsb(y) < |table| && table[Lsb(y)] == r
  }

  /** A code word that ends in table t fills every cell that starts with its last bits. */
  ghost predicate LeafOk(ctx: Context, tables: Tables, meta: seq<Meta>, t: nat, s: Slot)
    requires Shaped(tables, meta) && t < |meta| && ContextOk(ctx) && IsSlot(ctx.c, ctx.g, s)
  {
    var w := |meta[t].prefix|;
    w < s.len <= w + ctx.l && meta[t].prefix <= s.Word() ==>
      forall y: Bits :: Fills(meta[t], s, y) ==> CellIs(tables[t], y, EntryOf(ctx, s, s.len - w))
  }

  /** A code word that goes on beyond table t is reached through a linked table. */
  ghost predicate LinkOk(ctx: Context, tables: Tables, meta: seq<Meta>, t: nat, s: Slot)
    requires Shaped(tables, meta) && t < |meta|
  {
    var w := |meta[t].prefix|;
    w + ctx.l < s.len && meta[t].prefix <= s.Word() ==>
      LinksTo(ctx, tables, meta, t, s.Word()[..w + ctx.l])
  }

  ghost predicate LinksTo(ctx: Context, tables: Tables, meta: seq<Meta>, t: nat, prefix: Bits)
    requires Shaped(tables, meta) && t < |meta|
  {
    var w := |meta[t].prefix|;
    && w <= |prefix| && Lsb(prefix[w..]) < |tables[t]|
    && var r := tables[t][Lsb(prefix[w..])];
    && r.Huft? && t < r.v < |tables|
    && meta[r.v].prefix == prefix && r.b == ctx.l && r.e == 16 + meta[r.v].size
  }

  ghost predicate CellsOk(ctx: Context, tables: Tables, meta: seq<Meta>, cur: Slot)
    requires Shaped(tables, meta) && ContextOk(ctx)
  {
    forall t: nat, s: Slot :: t < |meta| && Done(ctx, cur, s) ==>
      LeafOk(ctx, tables, meta, t, s) && LinkOk(ctx, tables, meta, t, s)
  }

  /** Below a prefix: no code word ends within l - 1 further bits, and some are longer
      than l further bits.  A table created there comes out too wide. */
  ghost predicate Oversize(ctx: Context, prefix: Bits) {
    && 1 <= ctx.l && 1 <= |prefix| && |prefix| + ctx.l < ctx.g < |ctx.c|
    && End(ctx.c, |prefix| + ctx.l - 1) <= Shl(Msb(prefix), ctx.l - 1)
    && End(ctx.c, |prefix| + ctx.l) < Shl(Msb(prefix) + 1, ctx.l)
  }

  /** A narrow table is wide enough for every code word below it; a table other than the
      root is wider than l bits exactly in the Oversize case. */
  ghost predicate SizeOk(ctx: Context, m: Meta) {
    && (m.size < ctx.l ==> forall s :: IsSlot(ctx.c, ctx.g, s) && m.prefix <= s.Word() ==> s.len <= |m.prefix| + m.size)
    && (m.prefix != [] ==> (m.size > ctx.l <==> Oversize(ctx, m.prefix)))
    && 1 <= m.size <= BMAX + 1
  }

  ghost predicate Covered(ctx: Context, m: Meta, cur: Slot, y: Bits) {
    exists s :: Done(ctx, cur, s) && |m.prefix| < s.len <= |m.prefix| + ctx.l && Fills(m, s, y)
  }

  ghost predicate HighCell(ctx: Context, m: Meta, y: Bits) {
    |y| == m.size && ctx.l < |y| && y[ctx.l..] != Zeros(|y| - ctx.l)
  }

  /** In a table wider than l bits nothing but leaves is stored outside the low cells. */
  ghost predicate HighCellsOk(ctx: Context, tables: Tables, meta: seq<Meta>, cur: Slot)
    requires Shaped(tables, meta)
  {
    forall t: nat, y: Bits :: t < |meta| && HighCell(ctx, meta[t], y) && !Covered(ctx, meta[t], cur, y) ==>
      CellIs(tables[t], y, Unset)
  }

  ghost predicate Populated(ctx: Context, m: Meta, cur: Slot) {
    exists s :: Done(ctx, cur, s) && m.prefix <= s.Word() && |m.prefix| < s.len
  }

  ghost predicate TreeOk(ctx: Context, tables: Tables, meta: seq<Meta>, stack: seq<nat>, cur: Slot) {
    && ContextOk(ctx) && Shaped(tables, meta)
    && (meta != [] ==> meta[0].prefix == [])
    && (meta == [] ==> forall s :: !Done(ctx, cur, s))
    && CellsOk(ctx, tables, meta, cur)
    && (forall t :: 0 <= t < |meta| ==> SizeOk(ctx, meta[t]) && Multiple(|meta[t].prefix|, ctx.l))
    && HighCellsOk(ctx, tables, meta, cur)
    && (forall t: nat :: t < |meta| ==> t in stack || Populated(ctx, meta[t], cur))
  }

  /** w is a multiple of l: tables start every l bits. */
  predicate Multiple(w: nat, l: nat) {
    w == 0 || (1 <= l <= w && Multiple(w - l, l))
  }

  /** The table stack: the tables on the way along `word`, each linked to the next. */
  ghost predicate PathOk(ctx: Context, tables: Tables, meta: seq<Meta>, stack: seq<nat>, word: Bits)
    requires Shaped(tables, meta)
  {
    && (forall h :: 0 <= h < |stack| ==> stack[h] < |meta| && meta[stack[h]].prefix <= word)
    && (stack != [] ==> stack[0] == 0 && meta[stack[0]].prefix == [])
    && (forall h :: 0 <= h < |stack| - 1 ==>
          |meta[stack[h + 1]].prefix| == |meta[stack[h]].prefix| + ctx.l
          && LinksTo(ctx, tables, meta, stack[h], meta[stack[h + 1]].prefix))
  }

  /** Every table on the way along `word` is on the stack. */
  ghost predicate Known(meta: seq<Meta>, stack: seq<nat>, word: Bits) {
    forall t: nat :: t < |meta| && meta[t].prefix <= word ==> t in stack
  }

  /** The number of code bits before the table on top of the stack. */
  ghost function Depth(meta: seq<Meta>, stack: seq<nat>): nat
    requires stack != [] && stack[|stack| - 1] < |meta|
  {
    |meta[stack[|stack| - 1]].prefix|
  }

  lemma {:induction false} PathDepths(ctx: Context, tables: Tables, meta: seq<Meta>, stack: seq<nat>, word: Bits, h: nat)
    requires Shaped(tables, meta) && PathOk(ctx, tables, meta, stack, word) && h < |stack|
    ensures |meta[stack[h]].prefix| <= Depth(meta, stack)
    ensures h < |stack| - 1 ==> |meta[stack[h]].prefix| + ctx.l <= Depth(meta, stack)
    decreases |stack| - h
  {
    if h < |stack| - 1 {
      PathDepths(ctx, tables, meta, stack, word, h + 1);
    }
  }

  /** The build between two code words, about to place cur. */
  ghost predicate Ready(ctx: Context, tables: Tables, meta: seq<Meta>, stack: seq<nat>, cur: Slot) {
    && TreeOk(ctx, tables, meta, stack, cur) && IsSlot(ctx.c, ctx.g, cur)
    && PathOk(ctx, tables, meta, stack, cur.Word()) && Known(meta, stack, cur.Word())
    && (meta == [] <==> stack == [])
  }

  // ---------- Opening a further table ----------

  /** When cur does not end in the table on top of the stack, nothing placed so far lies
      under the part of cur that this table decides. */
  lemma {:induction false} NoneUnder(ctx: Context, tables: Tables, meta: seq<Meta>, stack: seq<nat>, cur: Slot, p: Bits)
    requires Ready(ctx, tables, meta, stack, cur) && stack != []
    requires Depth(meta, stack) + ctx.l < cur.len && p == cur.Word()[..Depth(meta, stack) + ctx.l]
    ensures forall t :: 0 <= t < |meta| ==> meta[t].prefix != p
    ensures forall s :: Done(ctx, cur, s) ==> !(p <= s.Word())
    ensures meta[stack[|stack| - 1]].size >= ctx.l
  {
    hide LeafOk, HighCellsOk, Populated, Oversize;
    var top := stack[|stack| - 1];
    assert SizeOk(ctx, meta[top]);
    forall t | 0 <= t < |meta|
      ensures meta[t].prefix != p
    {
      if meta[t].prefix == p {
        assert t in stack;
        var h :| 0 <= h < |stack| && stack[h] == t;
        PathDepths(ctx, tables, meta, stack, cur.Word(), h);
      }
    }
    forall s | Done(ctx, cur, s)
      ensures !(p <= s.Word())
    {
      if p <= s.Word() {
        assert s.Word()[..|p|] == p;
        assert meta[top].prefix <= s.Word();
        assert |p| == s.len ==> s.Word() == p;
        assert LinkOk(ctx, tables, meta, top, s);
        PrefixFree(ctx.c, ctx.g, s, cur);
        assert false;
      }
    }
  }

  /** Of the words that start with p, the one that goes on with zeros comes first. */
  lemma {:induction false} ZerosComeFirst(ctx: Context, cur: Slot, s: Slot, p: Bits)
    requires Full(ctx.c, ctx.g) && IsSlot(ctx.c, ctx.g, cur) && IsSlot(ctx.c, ctx.g, s)
    requires p <= cur.Word() && p <= s.Word() && s.Word()[|p|..] == Zeros(s.len - |p|)
    ensures !Before(cur, s)
  {
    hide Shl, Msb, CodeBits, First, End;
    SlotMsb(ctx.c, ctx.g, s);
    SlotMsb(ctx.c, ctx.g, cur);
    MsbOfZeros(s.Word(), |p|);
    MsbInterval(cur.Word(), |p|);
    assert cur.Word()[..|p|] == p == s.Word()[..|p|];
    if Before(cur, s) {
      SlotOrder(ctx.c, ctx.g, cur, s);
      ShlAdd(Msb(p), cur.len - |p|, s.len - cur.len);
      ShlOrder(Shl(Msb(p), cur.len - |p|), cur.code + 1, s.len - cur.len);
    }
  }

  /** ... and cur is the first pattern under it: its remaining bits are zeros. */
  lemma {:induction false} RestIsZero(ctx: Context, cur: Slot, p: Bits)
    requires Full(ctx.c, ctx.g) && IsSlot(ctx.c, ctx.g, cur) && p <= cur.Word()
    requires forall s :: Done(ctx, cur, s) ==> !(p <= s.Word())
    ensures cur.Word()[|p|..] == Zeros(cur.len - |p|)
  {
    var y := p + Zeros(ctx.g - |p|);
    var s := Tiling(ctx.c, ctx.g, y);
    if p <= s.Word() {
      assert s.Word()[|p|..] == y[|p|..s.len] == Zeros(s.len - |p|);
      ZerosComeFirst(ctx, cur, s, p);
      assert !Done(ctx, cur, s);
      assert s == cur;
    } else {
      assert s.Word() <= p;
      PrefixFree(ctx.c, ctx.g, s, cur);
      assert false;
    }
  }

  function AddTable(tables: Tables, size: nat): (r: Tables)
    ensures |r| == |tables| + 1 && |r[|tables|]| == Pow2(size)
  {
    tables + [seq(Pow2(size), i => Unset)]
  }

  function Put(tables: Tables, t: nat, index: nat, r: Huft): (tables': Tables)
    requires t < |tables| && index < |tables[t]|
    ensures |tables'| == |tables| && forall x :: 0 <= x < |tables| ==> |tables'[x]| == |tables[x]|
  {
    tables[t := tables[t][index := r]]
  }

  /** The first table of all. */
  lemma {:induction false} RootStep(ctx: Context, cur: Slot, size: nat)
    requires Ready(ctx, [], [], [], cur) && SizeOk(ctx, Meta([], size))
    ensures Ready(ctx, AddTable([], size), [Meta([], size)], [0], cur)
  {
    var tables, meta := AddTable([], size), [Meta([], size)];
    forall t: nat, y: Bits | t < |meta| && HighCell(ctx, meta[t], y) && !Covered(ctx, meta[t], cur, y)
      ensures CellIs(tables[t], y, Unset)
    {
      LsbBound(y);
    }
  }

  /** Where the link to the new table goes: a low cell of the table on top. */
  lemma {:induction false} LinkCell(ctx: Context, tables: Tables, meta: seq<Meta>, stack: seq<nat>, cur: Slot, p: Bits)
    requires Ready(ctx, tables, meta, stack, cur) && stack != []
    requires Depth(meta, stack) + ctx.l < cur.len && p == cur.Word()[..Depth(meta, stack) + ctx.l]
    ensures var w := Depth(meta, stack); Shr(Lsb(cur.Word()), w) == Lsb(p[w..]) < Pow2(ctx.l) <= |tables[stack[|stack| - 1]]|
  {
    hide LeafOk, LinkOk, HighCellsOk, Populated, Oversize, CellsOk, SizeOk, Known;
    var w := Depth(meta, stack);
    var top := stack[|stack| - 1];
    NoneUnder(ctx, tables, meta, stack, cur, p);
    RestIsZero(ctx, cur, p);
    LsbSplit(cur.Word(), w);
    var rest := cur.Word()[w..];
    assert rest[ctx.l..] == cur.Word()[|p|..];
    SmallMeansZeros(rest, ctx.l);
    LsbSplit(rest, ctx.l);
    assert rest[..ctx.l] == p[w..];
    MaskOfSmall(Lsb(rest), ctx.l);
    Pow2Monotone(ctx.l, meta[top].size);
  }

  lemma {:induction false} MaskOfSmall(v: nat, n: nat)
    requires v < Pow2(n)
    ensures Mask(v, n) == v
  {
    if n != 0 { MaskOfSmall(v / 2, n - 1); }
  }

  /** The tables after a further table with prefix p has been linked. */
  ghost predicate Linked(ctx: Context, tables: Tables, meta: seq<Meta>, top: nat, p: Bits, size: nat, tables': Tables, meta': seq<Meta>)
    requires Shaped(tables, meta) && top < |meta|
  {
    var w := |meta[top].prefix|;
    && w <= |p| && Lsb(p[w..]) < |tables[top]|
    && tables' == Put(AddTable(tables, size), top, Lsb(p[w..]), Huft(16 + size, ctx.l, |tables|))
    && meta' == meta + [Meta(p, size)]
  }

  lemma {:induction false} CellsAfterLink(ctx: Context, tables: Tables, meta: seq<Meta>, top: nat, p: Bits, size: nat,
                                          tables': Tables, meta': seq<Meta>, cur: Slot)
    requires ContextOk(ctx) && Shaped(tables, meta) && CellsOk(ctx, tables, meta, cur) && IsSlot(ctx.c, ctx.g, cur)
    requires top < |meta| && |p| == |meta[top].prefix| + ctx.l && meta[top].prefix <= p <= cur.Word() && |p| < cur.len
    requires Linked(ctx, tables, meta, top, p, size, tables', meta')
    requires forall s :: Done(ctx, cur, s) ==> !(p <= s.Word())
    requires meta[top].size >= ctx.l
    ensures Shaped(tables', meta') && CellsOk(ctx, tables', meta', cur)
  {
    hide LeafOk, LinkOk;
    forall t: nat, s: Slot | t < |meta'| && Done(ctx, cur, s)
      ensures LeafOk(ctx, tables', meta', t, s) && LinkOk(ctx, tables', meta', t, s)
    {
      if t < |meta| {
        assert LeafOk(ctx, tables, meta, t, s) && LinkOk(ctx, tables, meta, t, s);
        LeafAfterLink(ctx, tables, meta, top, p, size, tables', meta', cur, t, s);
        LinkAfterLink(ctx, tables, meta, top, p, size, tables', meta', t, s);
      } else {
        EmptyBelow(ctx, tables', meta', t, s);
      }
    }
  }

  lemma EmptyBelow(ctx: Context, tables: Tables, meta: seq<Meta>, t: nat, s: Slot)
    requires Shaped(tables, meta) && t < |meta| && ContextOk(ctx) && IsSlot(ctx.c, ctx.g, s)
    requires !(meta[t].prefix <= s.Word())
    ensures LeafOk(ctx, tables, meta, t, s) && LinkOk(ctx, tables, meta, t, s)
  {
  }

  lemma {:induction false} LeafAfterLink(ctx: Context, tables: Tables, meta: seq<Meta>, top: nat, p: Bits, size: nat,
                                         tables': Tables, meta': seq<Meta>, cur: Slot, t: nat, s: Slot)
    requires ContextOk(ctx) && Shaped(tables, meta) && Shaped(tables', meta') && IsSlot(ctx.c, ctx.g, cur)
    requires top < |meta| && |p| == |meta[top].prefix| + ctx.l && meta[top].prefix <= p <= cur.Word()
    requires Linked(ctx, tables, meta, top, p, size, tables', meta')
    requires meta[top].size >= ctx.l
    requires t < |meta| && Done(ctx, cur, s) && LeafOk(ctx, tables, meta, t, s)
    ensures LeafOk(ctx, tables', meta', t, s)
  {
    var w := |meta[t].prefix|;
    if w < s.len <= w + ctx.l && meta[t].prefix <= s.Word() {
      forall y: Bits | Fills(meta[t], s, y)
        ensures CellIs(tables'[t], y, EntryOf(ctx, s, s.len - w))
      {
        assert CellIs(tables[t], y, EntryOf(ctx, s, s.len - w));
        LeafCellAfterLink(ctx, tables, meta, top, p, size, tables', meta', cur, t, s, y);
      }
    }
  }

  lemma {:induction false} LeafCellAfterLink(ctx: Context, tables: Tables, meta: seq<Meta>, top: nat, p: Bits, size: nat,
                                             tables': Tables, meta': seq<Meta>, cur: Slot, t: nat, s: Slot, y: Bits)
    requires ContextOk(ctx) && Shaped(tables, meta) && Shaped(tables', meta') && IsSlot(ctx.c, ctx.g, cur)
    requires top < |meta| && |p| == |meta[top].prefix| + ctx.l && meta[top].prefix <= p <= cur.Word()
    requires Linked(ctx, tables, meta, top, p, size, tables', meta')
    requires meta[top].size >= ctx.l
    requires t < |meta| && Done(ctx, cur, s) && |meta[t].prefix| < s.len <= |meta[t].prefix| + ctx.l
    requires Fills(meta[t], s, y) && Lsb(y) < |tables[t]|
    ensures CellIs(tables'[t], y, tables[t][Lsb(y)])
  {
    hide Full;
    LinkedFrame(ctx, tables, meta, top, p, size, tables', meta', t, Lsb(y));
    if t == top { LinkAvoidsLeaf(ctx, meta[top], p, cur, s); }
  }

  lemma {:induction false} LinkAfterLink(ctx: Context, tables: Tables, meta: seq<Meta>, top: nat, p: Bits, size: nat,
                                         tables': Tables, meta': seq<Meta>, t: nat, s: Slot)
    requires Shaped(tables, meta) && Shaped(tables', meta')
    requires top < |meta| && |p| == |meta[top].prefix| + ctx.l && meta[top].prefix <= p
    requires Linked(ctx, tables, meta, top, p, size, tables', meta')
    requires t < |meta| && LinkOk(ctx, tables, meta, t, s) && !(p <= s.Word())
    ensures LinkOk(ctx, tables', meta', t, s)
  {
    var w := |meta[t].prefix|;
    if t == top && w + ctx.l < s.len && meta[t].prefix <= s.Word() {
      var q := s.Word()[..w + ctx.l];
      SameRest(q, p, w);
    }
  }

  lemma SameRest(q: Bits, p: Bits, w: nat)
    requires w <= |q| == |p| && q[..w] == p[..w]
    ensures Lsb(q[w..]) == Lsb(p[w..]) <==> q == p
  {
    if Lsb(q[w..]) == Lsb(p[w..]) {
      LsbInjective(q[w..], p[w..]);
      assert q == q[..w] + q[w..];
      assert p == p[..w] + p[w..];
    }
  }

  lemma LinkedFrame(ctx: Context, tables: Tables, meta: seq<Meta>, top: nat, p: Bits, size: nat, tables': Tables, meta': seq<Meta>, t: nat, i: nat)
    requires Shaped(tables, meta) && top < |meta| && Linked(ctx, tables, meta, top, p, size, tables', meta')
    requires t < |meta| && i < |tables[t]|
    ensures |tables'[t]| == |tables[t]| && meta'[t] == meta[t]
    ensures t != top || i != Lsb(p[|meta[top].prefix|..]) ==> tables'[t][i] == tables[t][i]
  {
  }

  /** The link cell is not one of the cells of a code word that ends in that table. */
  lemma {:induction false} LinkAvoidsLeaf(ctx: Context, m: Meta, p: Bits, cur: Slot, s: Slot)
    requires Full(ctx.c, ctx.g) && IsSlot(ctx.c, ctx.g, cur) && Done(ctx, cur, s)
    requires |p| == |m.prefix| + ctx.l && m.prefix <= p <= cur.Word() && m.size >= ctx.l
    requires |m.prefix| < s.len <= |m.prefix| + ctx.l
    ensures forall y: Bits :: Fills(m, s, y) ==> Lsb(y) != Lsb(p[|m.prefix|..])
  {
    var w := |m.prefix|;
    var low := p[w..];
    forall y: Bits | Fills(m, s, y)
      ensures Lsb(y) != Lsb(low)
    {
      if Lsb(y) == Lsb(low) {
        LsbBound(low);
        LsbSplit(y, ctx.l);
        MaskOfSmall(Lsb(y), ctx.l);
        LsbInjective(y[..ctx.l], low);
        assert (m.prefix + y)[..|p|] == m.prefix + low == p;
        assert s.Word() <= p;
        PrefixFree(ctx.c, ctx.g, s, cur);
      }
    }
  }

  lemma {:induction false} HighCellsAfterLink(ctx: Context, tables: Tables, meta: seq<Meta>, top: nat, p: Bits, size: nat,
                                              tables': Tables, meta': seq<Meta>, cur: Slot)
    requires Shaped(tables, meta) && HighCellsOk(ctx, tables, meta, cur)
    requires top < |meta| && |p| == |meta[top].prefix| + ctx.l && Linked(ctx, tables, meta, top, p, size, tables', meta')
    ensures Shaped(tables', meta') && HighCellsOk(ctx, tables', meta', cur)
  {
    hide Covered;
    var w := |meta[top].prefix|;
    forall t: nat, y: Bits | t < |meta'| && HighCell(ctx, meta'[t], y) && !Covered(ctx, meta'[t], cur, y)
      ensures CellIs(tables'[t], y, Unset)
    {
      LsbBound(y);
      if t == top {
        LsbBound(p[w..]);
        SmallMeansZeros(y, ctx.l);
      }
    }
  }

  lemma {:induction false} PathAfterLink(ctx: Context, tables: Tables, meta: seq<Meta>, stack: seq<nat>, word: Bits, p: Bits, size: nat,
                                         tables': Tables, meta': seq<Meta>)
    requires Shaped(tables, meta) && PathOk(ctx, tables, meta, stack, word) && stack != [] && ctx.l >= 1
    requires p <= word && |p| == Depth(meta, stack) + ctx.l
    requires Linked(ctx, tables, meta, stack[|stack| - 1], p, size, tables', meta') && Shaped(tables', meta')
    ensures PathOk(ctx, tables', meta', stack + [|tables|], word)
  {
    hide Pow2, Lsb;
    var top := stack[|stack| - 1];
    var stack' := stack + [|tables|];
    forall h | 0 <= h < |stack'| - 1
      ensures |meta'[stack'[h + 1]].prefix| == |meta'[stack'[h]].prefix| + ctx.l
      ensures LinksTo(ctx, tables', meta', stack'[h], meta'[stack'[h + 1]].prefix)
    {
      if h < |stack| - 1 {
        PathDepths(ctx, tables, meta, stack, word, h);
        PathDepths(ctx, tables, meta, stack, word, h + 1);
        assert LinksTo(ctx, tables, meta, stack[h], meta[stack[h + 1]].prefix);
        assert stack[h] != top;
      }
    }
  }

  /** Linking a further table, and going on below it. */
  lemma {:induction false} LinkStep(ctx: Context, tables: Tables, meta: seq<Meta>, stack: seq<nat>, cur: Slot, p: Bits, size: nat,
                                    tables': Tables, meta': seq<Meta>)
    requires Ready(ctx, tables, meta, stack, cur) && stack != []
    requires Depth(meta, stack) + ctx.l < cur.len && p == cur.Word()[..Depth(meta, stack) + ctx.l]
    requires SizeOk(ctx, Meta(p, size))
    requires Linked(ctx, tables, meta, stack[|stack| - 1], p, size, tables', meta')
    ensures Ready(ctx, tables', meta', stack + [|tables|], cur)
  {
    hide LeafOk, LinkOk, HighCellsOk, Oversize, CellsOk, SizeOk, Pow2, Lsb, CodeBits, Linked, Full, Populated, Put, AddTable;
    var top := stack[|stack| - 1];
    NoneUnder(ctx, tables, meta, stack, cur, p);
    CellsAfterLink(ctx, tables, meta, top, p, size, tables', meta', cur);
    HighCellsAfterLink(ctx, tables, meta, top, p, size, tables', meta', cur);
    PathAfterLink(ctx, tables, meta, stack, cur.Word(), p, size, tables', meta');
    LinkedMeta(ctx, tables, meta, top, p, size, tables', meta');
    hide PathOk;
    assert forall x :: x in stack ==> x in stack + [|tables|];
  }

  lemma LinkedMeta(ctx: Context, tables: Tables, meta: seq<Meta>, top: nat, p: Bits, size: nat, tables': Tables, meta': seq<Meta>)
    requires Shaped(tables, meta) && top < |meta| && Linked(ctx, tables, meta, top, p, size, tables', meta')
    ensures meta' == meta + [Meta(p, size)]
  {
  }

  // ---------- Placing a code word ----------

  lemma {:induction false} MaskPeriod(v: nat, u: nat, d: nat)
    requires v < u <= v + Pow2(d)
    ensures Mask(u, d) == Mask(v, d) <==> u == v + Pow2(d)
  {
    if d != 0 && u % 2 == v % 2 {
      MaskPeriod(v / 2, u / 2, d - 1);
    }
  }

  /** Which cells the fill loop reaches: those whose low bits are the last bits of the word. */
  lemma {:induction false} FilledCells(m: Meta, s: Slot, y: Bits)
    requires m.prefix <= s.Word() && |y| == m.size && s.len - |m.prefix| <= |y|
    ensures Fills(m, s, y) <==> Mask(Lsb(y), s.len - |m.prefix|) == Shr(Lsb(s.Word()), |m.prefix|)
  {
    var rest := s.Word()[|m.prefix|..];
    LsbSplit(s.Word(), |m.prefix|);
    LsbSplit(y, |rest|);
    assert s.Word() == m.prefix + rest;
    if Lsb(y[..|rest|]) == Lsb(rest) {
      LsbInjective(y[..|rest|], rest);
    }
    var z := m.prefix + y;
    assert z[..s.len] == m.prefix + y[..|rest|];
    assert z[..s.len][|m.prefix|..] == y[..|rest|];
    if Fills(m, s, y) {
      assert z[..s.len] == s.Word();
      assert y[..|rest|] == rest;
    } else {
      assert z[..s.len] != s.Word();
      assert y[..|rest|] != rest;
    }
  }

  /** The tables after the cells of cur in table `top` have been overwritten. */
  ghost predicate Filled(ctx: Context, tables: Tables, meta: seq<Meta>, top: nat, cur: Slot, tables': Tables)
    requires Shaped(tables, meta) && top < |meta| && ContextOk(ctx) && IsSlot(ctx.c, ctx.g, cur)
    requires |meta[top].prefix| < cur.len
  {
    && |tables'| == |tables| && |tables'[top]| == |tables[top]|
    && (forall t :: 0 <= t < |tables| && t != top ==> tables'[t] == tables[t])
    && (forall y: Bits :: Fills(meta[top], cur, y) ==> CellIs(tables'[top], y, EntryOf(ctx, cur, cur.len - |meta[top].prefix|)))
    && (forall y: Bits, r: Huft :: |y| == meta[top].size && CellIs(tables[top], y, r) && !Fills(meta[top], cur, y) ==>
          CellIs(tables'[top], y, r))
  }

  /** No cell belongs to two code words. */
  lemma {:induction false} FillsOnce(ctx: Context, m: Meta, s: Slot, t: Slot, y: Bits)
    requires Full(ctx.c, ctx.g) && IsSlot(ctx.c, ctx.g, s) && IsSlot(ctx.c, ctx.g, t)
    requires Fills(m, s, y) && Fills(m, t, y)
    ensures s == t
  {
    Comparable(s.Word(), t.Word(), m.prefix + y);
    PrefixFree(ctx.c, ctx.g, s, t);
    PrefixFree(ctx.c, ctx.g, t, s);
  }

  lemma {:induction false} OldCellsAfterFill(ctx: Context, tables: Tables, meta: seq<Meta>, top: nat, cur: Slot, tables': Tables, t: nat, s: Slot)
    requires ContextOk(ctx) && Shaped(tables, meta) && Shaped(tables', meta) && top < |meta| && IsSlot(ctx.c, ctx.g, cur)
    requires |meta[top].prefix| < cur.len <= |meta[top].prefix| + ctx.l
    requires Filled(ctx, tables, meta, top, cur, tables')
    requires t < |meta| && Done(ctx, cur, s) && LeafOk(ctx, tables, meta, t, s) && LinkOk(ctx, tables, meta, t, s)
    ensures LeafOk(ctx, tables', meta, t, s) && LinkOk(ctx, tables', meta, t, s)
  {
    hide Lsb, Pow2, EntryOf;
    var w := |meta[t].prefix|;
    if w < s.len <= w + ctx.l && meta[t].prefix <= s.Word() {
      forall y: Bits | Fills(meta[t], s, y)
        ensures CellIs(tables'[t], y, EntryOf(ctx, s, s.len - w))
      {
        assert CellIs(tables[t], y, EntryOf(ctx, s, s.len - w));
        if t == top && Fills(meta[top], cur, y) {
          FillsOnce(ctx, meta[top], s, cur, y);
        }
      }
    }
  }

  lemma KnownOnStack(meta: seq<Meta>, stack: seq<nat>, word: Bits, t: nat)
    requires Known(meta, stack, word) && t < |meta| && meta[t].prefix <= word
    ensures t in stack
  {
  }

  /** The table on top is the only one in which cur ends. */
  lemma {:induction false} NewCellsAfterFill(ctx: Context, tables: Tables, meta: seq<Meta>, stack: seq<nat>, cur: Slot, tables': Tables, t: nat)
    requires ContextOk(ctx) && Shaped(tables, meta) && Shaped(tables', meta) && IsSlot(ctx.c, ctx.g, cur) && stack != []
    requires PathOk(ctx, tables, meta, stack, cur.Word()) && Known(meta, stack, cur.Word())
    requires Depth(meta, stack) < cur.len <= Depth(meta, stack) + ctx.l
    requires Filled(ctx, tables, meta, stack[|stack| - 1], cur, tables') && t < |meta|
    ensures LeafOk(ctx, tables', meta, t, cur) && LinkOk(ctx, tables', meta, t, cur)
  {
    hide Lsb, Pow2, EntryOf, Full, CodeBits, ContextOk, Known;
    var top := stack[|stack| - 1];
    if meta[t].prefix <= cur.Word() {
      KnownOnStack(meta, stack, cur.Word(), t);
      var h :| 0 <= h < |stack| && stack[h] == t;
      PathDepths(ctx, tables, meta, stack, cur.Word(), h);
      if h < |stack| - 1 {
        assert LinksTo(ctx, tables, meta, t, meta[stack[h + 1]].prefix);
        PathDepths(ctx, tables, meta, stack, cur.Word(), h + 1);
        assert t != top;
        assert meta[stack[h + 1]].prefix == cur.Word()[..|meta[t].prefix| + ctx.l];
      } else {
        assert t == top;
      }
    }
  }

  lemma {:induction false} CellsAfterFill(ctx: Context, tables: Tables, meta: seq<Meta>, stack: seq<nat>, cur: Slot, tables': Tables)
    requires Ready(ctx, tables, meta, stack, cur) && stack != [] && Shaped(tables', meta)
    requires Depth(meta, stack) < cur.len <= Depth(meta, stack) + ctx.l
    requires Filled(ctx, tables, meta, stack[|stack| - 1], cur, tables')
    ensures CellsOk(ctx, tables', meta, Slot(cur.len, cur.code + 1))
  {
    hide Lsb, Pow2, EntryOf, Full, LeafOk, LinkOk, HighCellsOk, SizeOk, Known, Filled;
    forall t: nat, s: Slot | t < |meta| && Done(ctx, Slot(cur.len, cur.code + 1), s)
      ensures LeafOk(ctx, tables', meta, t, s) && LinkOk(ctx, tables', meta, t, s)
    {
      if s == cur {
        NewCellsAfterFill(ctx, tables, meta, stack, cur, tables', t);
      } else {
        assert Done(ctx, cur, s);
        OldCellsAfterFill(ctx, tables, meta, stack[|stack| - 1], cur, tables', t, s);
      }
    }
  }

  lemma CoveredLater(ctx: Context, m: Meta, cur: Slot, y: Bits)
    ensures Covered(ctx, m, cur, y) ==> Covered(ctx, m, Slot(cur.len, cur.code + 1), y)
  {
    if Covered(ctx, m, cur, y) {
      var s :| Done(ctx, cur, s) && |m.prefix| < s.len <= |m.prefix| + ctx.l && Fills(m, s, y);
      assert Done(ctx, Slot(cur.len, cur.code + 1), s);
    }
  }

  lemma {:induction false} HighCellsAfterFill(ctx: Context, tables: Tables, meta: seq<Meta>, top: nat, cur: Slot, tables': Tables)
    requires ContextOk(ctx) && Shaped(tables, meta) && Shaped(tables', meta) && HighCellsOk(ctx, tables, meta, cur)
    requires top < |meta| && IsSlot(ctx.c, ctx.g, cur) && |meta[top].prefix| < cur.len <= |meta[top].prefix| + ctx.l
    requires Filled(ctx, tables, meta, top, cur, tables')
    ensures HighCellsOk(ctx, tables', meta, Slot(cur.len, cur.code + 1))
  {
    hide Lsb, Pow2, EntryOf, Full, Fills;
    var next := Slot(cur.len, cur.code + 1);
    forall t: nat, y: Bits | t < |meta| && HighCell(ctx, meta[t], y) && !Covered(ctx, meta[t], next, y)
      ensures CellIs(tables'[t], y, Unset)
    {
      CoveredLater(ctx, meta[t], cur, y);
      assert CellIs(tables[t], y, Unset);
      assert Done(ctx, next, cur);
    }
  }

  lemma {:induction false} AllPopulated(ctx: Context, tables: Tables, meta: seq<Meta>, stack: seq<nat>, cur: Slot, t: nat)
    requires Shaped(tables, meta) && stack != [] && IsSlot(ctx.c, ctx.g, cur) && PathOk(ctx, tables, meta, stack, cur.Word())
    requires Depth(meta, stack) < cur.len && t < |meta| && (t in stack || Populated(ctx, meta[t], cur))
    ensures Populated(ctx, meta[t], Slot(cur.len, cur.code + 1))
  {
    hide LinksTo, CodeBits, Pow2;
    var next := Slot(cur.len, cur.code + 1);
    assert Done(ctx, next, cur);
    if t in stack {
      var h :| 0 <= h < |stack| && stack[h] == t;
      PathDepths(ctx, tables, meta, stack, cur.Word(), h);
    } else {
      var s :| Done(ctx, cur, s) && meta[t].prefix <= s.Word() && |meta[t].prefix| < s.len;
      assert Done(ctx, next, s);
    }
  }

  lemma {:induction false} PathAfterFill(ctx: Context, tables: Tables, meta: seq<Meta>, stack: seq<nat>, cur: Slot, tables': Tables)
    requires ContextOk(ctx) && Shaped(tables, meta) && Shaped(tables', meta) && stack != [] && IsSlot(ctx.c, ctx.g, cur)
    requires PathOk(ctx, tables, meta, stack, cur.Word()) && Depth(meta, stack) < cur.len
    requires Filled(ctx, tables, meta, stack[|stack| - 1], cur, tables')
    ensures PathOk(ctx, tables', meta, stack, cur.Word())
  {
    hide Lsb, Pow2, EntryOf, Full, Fills, CodeBits, CellIs;
    forall h | 0 <= h < |stack| - 1
      ensures LinksTo(ctx, tables', meta, stack[h], meta[stack[h + 1]].prefix)
    {
      assert LinksTo(ctx, tables, meta, stack[h], meta[stack[h + 1]].prefix);
      PathDepths(ctx, tables, meta, stack, cur.Word(), h);
    }
  }

  /** Placing cur: everything placed stays placed, and every table is now in use. */
  lemma {:induction false} FillStep(ctx: Context, tables: Tables, meta: seq<Meta>, stack: seq<nat>, cur: Slot, tables': Tables)
    requires Ready(ctx, tables, meta, stack, cur) && stack != [] && Shaped(tables', meta)
    requires Depth(meta, stack) < cur.len <= Depth(meta, stack) + ctx.l
    requires Filled(ctx, tables, meta, stack[|stack| - 1], cur, tables')
    ensures var next := Slot(cur.len, cur.code + 1);
            TreeOk(ctx, tables', meta, stack, next) && PathOk(ctx, tables', meta, stack, cur.Word())
            && forall t: nat :: t < |meta| ==> Populated(ctx, meta[t], next)
  {
    var next := Slot(cur.len, cur.code + 1);
    CellsAfterFill(ctx, tables, meta, stack, cur, tables');
    HighCellsAfterFill(ctx, tables, meta, stack[|stack| - 1], cur, tables');
    PathAfterFill(ctx, tables, meta, stack, cur, tables');
    hide PathOk, Filled, Lsb, Pow2, EntryOf, Full, CellsOk, HighCellsOk, SizeOk, Multiple, CodeBits, Populated;
    assert Depth(meta, stack) < cur.len;
    forall t: nat | t < |meta|
      ensures Populated(ctx, meta[t], next)
    {
      AllPopulated(ctx, tables, meta, stack, cur, t);
    }
  }

  // ---------- Going on to the next code word ----------

  /** The build between two steps; cur may be one past the last code of its length. */
  ghost predicate Resting(ctx: Context, tables: Tables, meta: seq<Meta>, stack: seq<nat>, cur: Slot) {
    && TreeOk(ctx, tables, meta, stack, cur)
    && PathOk(ctx, tables, meta, stack, cur.Word())
    && (cur.code < Pow2(cur.len) ==> Known(meta, stack, cur.Word()))
    && (meta == [] <==> stack == [])
  }

  lemma RestingIsReady(ctx: Context, tables: Tables, meta: seq<Meta>, stack: seq<nat>, cur: Slot)
    requires Resting(ctx, tables, meta, stack, cur) && IsSlot(ctx.c, ctx.g, cur)
    ensures Ready(ctx, tables, meta, stack, cur)
  {
    SlotMsb(ctx.c, ctx.g, cur);
  }

  /** A prefix shared by an earlier code word and the next code is shared by the one between. */
  lemma {:induction false} Convex(ctx: Context, cur: Slot, s: Slot, p: Bits)
    requires Full(ctx.c, ctx.g) && IsSlot(ctx.c, ctx.g, cur) && cur.code + 1 < Pow2(cur.len)
    requires Done(ctx, Slot(cur.len, cur.code + 1), s) && |p| < s.len
    requires p <= s.Word() && p <= Slot(cur.len, cur.code + 1).Word()
    ensures p <= cur.Word()
  {
    hide Shl, Msb, CodeBits, First, End;
    if s != cur {
      var k, w := cur.len, |p|;
      SlotOrder(ctx.c, ctx.g, s, cur);
      SlotMsb(ctx.c, ctx.g, s);
      SlotMsb(ctx.c, ctx.g, cur);
      MsbOfCodeBits(cur.code + 1, k);
      PrefixByInterval(p, s.Word());
      PrefixByInterval(p, Slot(k, cur.code + 1).Word());
      PrefixByInterval(p, cur.Word());
      var low := Shl(Msb(p), s.len - w);
      ShlAdd(Msb(p), s.len - w, k - s.len);
      ShlOrder(low, s.code + 1, k - s.len);
      assert Shl(low, k - s.len) == Shl(Msb(p), k - w);
      assert Shl(Msb(p), k - w) <= cur.code < Shl(Msb(p) + 1, k - w);
    }
  }

  lemma {:induction false} PathKept(ctx: Context, tables: Tables, meta: seq<Meta>, stack: seq<nat>, word: Bits, word': Bits, n: nat)
    requires Shaped(tables, meta) && PathOk(ctx, tables, meta, stack, word)
    requires 1 <= n <= |stack| && meta[stack[n - 1]].prefix <= word'
    ensures PathOk(ctx, tables, meta, stack[..n], word')
  {
    hide LinksTo;
    var kept := stack[..n];
    assert PathOk(ctx, tables, meta, kept, word);
    forall h | 0 <= h < |kept|
      ensures meta[kept[h]].prefix <= word'
    {
      PathDepths(ctx, tables, meta, kept, word, h);
      assert meta[kept[h]].prefix <= meta[stack[n - 1]].prefix;
    }
  }

  /** Backing up over the tables that the next code does not share. */
  lemma {:induction false} BackUp(ctx: Context, tables: Tables, meta: seq<Meta>, stack: seq<nat>, cur: Slot, n: nat)
    requires var next := Slot(cur.len, cur.code + 1);
             TreeOk(ctx, tables, meta, stack, next) && PathOk(ctx, tables, meta, stack, cur.Word())
             && forall t: nat :: t < |meta| ==> Populated(ctx, meta[t], next)
    requires IsSlot(ctx.c, ctx.g, cur) && Known(meta, stack, cur.Word())
    requires 1 <= n <= |stack| && meta[stack[n - 1]].prefix <= Slot(cur.len, cur.code + 1).Word()
    requires forall h :: n <= h < |stack| ==> !(meta[stack[h]].prefix <= Slot(cur.len, cur.code + 1).Word())
    ensures Resting(ctx, tables, meta, stack[..n], Slot(cur.len, cur.code + 1))
  {
    hide CellsOk, HighCellsOk, SizeOk, LinksTo, LeafOk, LinkOk;
    var next := Slot(cur.len, cur.code + 1);
    var kept := stack[..n];
    PathKept(ctx, tables, meta, stack, cur.Word(), next.Word(), n);
    assert meta != [];
    hide PathOk;
    if next.code < Pow2(next.len) {
      forall t: nat | t < |meta| && meta[t].prefix <= next.Word()
        ensures t in kept
      {
        assert Populated(ctx, meta[t], next);
        var s :| Done(ctx, next, s) && meta[t].prefix <= s.Word() && |meta[t].prefix| < s.len;
        Convex(ctx, cur, s, meta[t].prefix);
        assert t in stack;
        var h :| 0 <= h < |stack| && stack[h] == t;
        assert kept[h] == t;
      }
    }
  }

  lemma DoneNextLength(ctx: Context, k: nat, s: Slot)
    requires 1 <= k < ctx.g < |ctx.c|
    ensures Done(ctx, Slot(k, End(ctx.c, k)), s) <==> Done(ctx, Slot(k + 1, First(ctx.c, k + 1)), s)
  {
  }

  /** Codes shorter than the longest never use up all patterns. */
  lemma RoomLeft(c: seq<nat>, g: nat, k: nat)
    requires Full(c, g) && 1 <= k < g
    ensures End(c, k) < Pow2(k)
  {
    EndBeforeFirst(c, k, g);
    ShlAdd(1, k, g - k);
    ShlOrder(Pow2(k), End(c, k), g - k);
    ShlOrder(End(c, k), Pow2(k), g - k);
  }

  lemma PrefixOfLonger(p: Bits, w: Bits, w': Bits)
    requires w' == w + [false]
    ensures p <= w' ==> p <= w || |p| == |w'|
  {
  }

  /** From the codes of k bits to those of k + 1: the next code is the old one and a zero. */
  lemma {:induction false} NextLength(ctx: Context, tables: Tables, meta: seq<Meta>, stack: seq<nat>, k: nat)
    requires 1 <= k < ctx.g < |ctx.c| && Resting(ctx, tables, meta, stack, Slot(k, End(ctx.c, k)))
    ensures Resting(ctx, tables, meta, stack, Slot(k + 1, First(ctx.c, k + 1)))
    ensures Slot(k + 1, First(ctx.c, k + 1)).Word() == Slot(k, End(ctx.c, k)).Word() + [false]
  {
    hide LeafOk, LinkOk, SizeOk, LinksTo;
    var cur, next := Slot(k, End(ctx.c, k)), Slot(k + 1, First(ctx.c, k + 1));
    assert next.code == 2 * cur.code;
    assert next.Word() == cur.Word() + [false];
    RoomLeft(ctx.c, ctx.g, k);
    hide CodeBits, Full;
    forall s: Slot ensures Done(ctx, cur, s) <==> Done(ctx, next, s) {
      DoneNextLength(ctx, k, s);
    }
    assert CellsOk(ctx, tables, meta, next);
    hide CellsOk;
    forall t: nat, y: Bits | t < |meta|
      ensures Covered(ctx, meta[t], cur, y) <==> Covered(ctx, meta[t], next, y)
    {
    }
    assert HighCellsOk(ctx, tables, meta, next);
    hide HighCellsOk, Covered;
    forall t: nat | t < |meta|
      ensures t in stack || Populated(ctx, meta[t], next)
      ensures meta[t].prefix <= next.Word() ==> t in stack
    {
      if t !in stack {
        PrefixOfLonger(meta[t].prefix, cur.Word(), next.Word());
        assert Populated(ctx, meta[t], cur);
        var s :| Done(ctx, cur, s) && meta[t].prefix <= s.Word() && |meta[t].prefix| < s.len;
        assert Done(ctx, next, s);
      }
    }
  }

  // ---------- Lookups in the finished tables ----------

  ghost predicate Finished(ctx: Context, tables: Tables, meta: seq<Meta>) {
    exists stack :: stack != [] && TreeOk(ctx, tables, meta, stack, Slot(ctx.g, Pow2(ctx.g)))
  }

  lemma {:induction false} LsbOfExtended(y: Bits, n: nat)
    ensures Lsb(y + Zeros(n)) == Lsb(y)
  {
    if y == [] {
      assert y + Zeros(n) == Zeros(n);
      ZerosAreZero(n);
    } else {
      assert (y + Zeros(n))[1..] == y[1..] + Zeros(n);
      LsbOfExtended(y[1..], n);
    }
  }

  /** The index that a lookup uses, as bits: those of the word, as far as it goes. */
  lemma {:induction false} IndexBits(buffer: nat, rest: Bits, size: nat)
    requires ToBits(buffer, |rest|) == rest
    ensures Lsb(ToBits(buffer, size)) == Mask(buffer, size)
    ensures forall d :: 0 <= d <= size && d <= |rest| ==> ToBits(buffer, size)[..d] == rest[..d]
    ensures forall d: nat :: d <= |rest| ==> ToBits(Shr(buffer, d), |rest| - d) == rest[d..]
  {
    LsbOfToBits(buffer, size);
    forall d: nat | d <= |rest|
      ensures d <= size ==> ToBits(buffer, size)[..d] == rest[..d]
      ensures ToBits(Shr(buffer, d), |rest| - d) == rest[d..]
    {
      ToBitsSplit(buffer, d, |rest| - d);
      if d <= size { ToBitsSplit(buffer, d, size - d); }
    }
  }

  /** A lookup through a link goes on in the linked table with the next bits. */
  lemma {:induction false} LinkLookup(ctx: Context, tables: Tables, meta: seq<Meta>, t: nat, next: Bits, buffer: nat)
    requires Shaped(tables, meta) && t < |meta| && LinksTo(ctx, tables, meta, t, next)
    requires |next| == |meta[t].prefix| + ctx.l && ToBits(buffer, ctx.l) == next[|meta[t].prefix|..]
    requires forall x :: 0 <= x < |meta| ==> 1 <= meta[x].size <= BMAX + 1
    ensures var t' := tables[t][Lsb(next[|meta[t].prefix|..])].v;
            t < t' < |tables| && meta[t'].prefix == next
            && Lookup(tables, t, ctx.l, buffer) ==
               match Lookup(tables, t', meta[t'].size, Shr(buffer, ctx.l))
               case Garbage => Garbage
               case Found(e, v, used) => Found(e, v, used + ctx.l)
  {
    LsbOfToBits(buffer, ctx.l);
  }

  /** Looking up a code word from a table on its way. */
  lemma {:induction false} LookupFrom(ctx: Context, tables: Tables, meta: seq<Meta>, stack: seq<nat>, s: Slot, t: nat, size: nat, buffer: nat)
    requires TreeOk(ctx, tables, meta, stack, Slot(ctx.g, Pow2(ctx.g)))
    requires forall x :: 0 <= x < |meta| && meta[x].prefix != [] ==> meta[x].size <= ctx.l
    requires IsSlot(ctx.c, ctx.g, s) && ctx.g <= BMAX
    requires t < |meta| && meta[t].prefix <= s.Word() && |meta[t].prefix| < s.len
    requires size == if meta[t].size < ctx.l then meta[t].size else ctx.l
    requires ToBits(buffer, s.len - |meta[t].prefix|) == s.Word()[|meta[t].prefix|..]
    requires Codable(ctx.coding, Place(ctx.c, s))
    ensures var r := EntryOf(ctx, s, 0); Lookup(tables, t, size, buffer) == Found(r.e, r.v, s.len - |meta[t].prefix|)
    decreases |tables| - t
  {
    hide HighCellsOk, Populated, Oversize, Lookup, EntryOf, ToBits, Shr, Mask, Lsb, Multiple, LeafOk, CodeBits;
    var w := |meta[t].prefix|;
    var rest := s.Word()[w..];
    var y := ToBits(buffer, size);
    assert Done(ctx, Slot(ctx.g, Pow2(ctx.g)), s) by { SlotMsb(ctx.c, ctx.g, s); }
    assert LeafOk(ctx, tables, meta, t, s) && LinkOk(ctx, tables, meta, t, s);
    assert SizeOk(ctx, meta[t]);
    IndexBits(buffer, rest, size);
    if s.len <= w + ctx.l {
      LeafLookup(ctx, tables, meta, s, t, size, buffer);
    } else {
      var next := s.Word()[..w + ctx.l];
      assert y[..ctx.l] == y && rest[..ctx.l] == next[w..];
      var t' := tables[t][Lsb(next[w..])].v;
      assert SizeOk(ctx, meta[t']);
      LinkLookup(ctx, tables, meta, t, next, buffer);
      assert s.Word()[w + ctx.l..] == rest[ctx.l..];
      LookupFrom(ctx, tables, meta, stack, s, t', meta[t'].size, Shr(buffer, ctx.l));
    }
  }

  lemma {:induction false} LeafLookup(ctx: Context, tables: Tables, meta: seq<Meta>, s: Slot, t: nat, size: nat, buffer: nat)
    requires Shaped(tables, meta) && ContextOk(ctx) && IsSlot(ctx.c, ctx.g, s) && t < |meta|
    requires meta[t].prefix <= s.Word() && |meta[t].prefix| < s.len <= |meta[t].prefix| + ctx.l
    requires LeafOk(ctx, tables, meta, t, s) && SizeOk(ctx, meta[t])
    requires size == if meta[t].size < ctx.l then meta[t].size else ctx.l
    requires ToBits(buffer, s.len - |meta[t].prefix|) == s.Word()[|meta[t].prefix|..]
    requires Codable(ctx.coding, Place(ctx.c, s))
    ensures var r := EntryOf(ctx, s, 0); Lookup(tables, t, size, buffer) == Found(r.e, r.v, s.len - |meta[t].prefix|)
    ensures Mask(buffer, size) < |tables[t]| && tables[t][Mask(buffer, size)] == EntryOf(ctx, s, s.len - |meta[t].prefix|)
  {
    hide Full, CodeBits, ToBits, Oversize;
    var w := |meta[t].prefix|;
    var rest := s.Word()[w..];
    var y := ToBits(buffer, size);
    IndexBits(buffer, rest, size);
    var y' := y + Zeros(meta[t].size - size);
    LsbOfExtended(y, meta[t].size - size);
    assert y[..|rest|] == rest[..|rest|] == rest;
    assert (meta[t].prefix + y')[..s.len] == meta[t].prefix + rest;
    assert s.Word() == meta[t].prefix + rest;
    assert Fills(meta[t], s, y');
  }

  /** Every code word is decoded, with exactly its own bits, unless some table came out
      too wide. */
  lemma {:induction false} LookupWord(ctx: Context, tables: Tables, meta: seq<Meta>, s: Slot, buffer: nat)
    requires Finished(ctx, tables, meta) && meta != [] && ctx.g <= BMAX
    requires forall x :: 0 <= x < |meta| && meta[x].prefix != [] ==> meta[x].size <= ctx.l
    requires IsSlot(ctx.c, ctx.g, s) && ToBits(buffer, s.len) == s.Word() && Codable(ctx.coding, Place(ctx.c, s))
    ensures var r := EntryOf(ctx, s, 0); Lookup(tables, 0, ctx.l, buffer) == Found(r.e, r.v, s.len)
  {
    hide HighCellsOk, Populated, Oversize, CellsOk;
    var stack :| stack != [] && TreeOk(ctx, tables, meta, stack, Slot(ctx.g, Pow2(ctx.g)));
    RootIsWide(ctx, meta[0]);
    assert s.Word()[0..] == s.Word();
    LookupFrom(ctx, tables, meta, stack, s, 0, ctx.l, buffer);
  }

  lemma RootIsWide(ctx: Context, m: Meta)
    requires ContextOk(ctx) && SizeOk(ctx, m) && m.prefix == []
    ensures m.size >= ctx.l
  {
    var last := Slot(ctx.g, First(ctx.c, ctx.g));
    assert IsSlot(ctx.c, ctx.g, last);
    assert m.prefix <= last.Word();
  }

  // ---------- When a table comes out too wide ----------

  /** A whole subtree, l or more bits down, has no code shorter than l bits in it, and the
      longest code is longer than that.  Canonical order puts such a subtree last. */
  ghost predicate WideSubtree(c: seq<nat>, g: nat, l: nat) {
    1 <= l && g < |c| && exists w: nat :: WideAt(c, g, l, w)
  }

  ghost predicate WideAt(c: seq<nat>, g: nat, l: nat, w: nat)
    requires 1 <= l && g < |c|
  {
    Multiple(w, l) && 1 <= w && w + l < g && End(c, w + l - 1) + Pow2(l - 1) <= Pow2(w + l - 1)
  }

  lemma {:induction false} MultipleGap(a: nat, b: nat, l: nat)
    requires Multiple(a, l) && Multiple(b, l) && a < b
    ensures a + l <= b
    decreases a + b
  {
    if a != 0 { MultipleGap(a - l, b - l, l); }
  }

  lemma {:induction false} OversizeIsWide(ctx: Context, prefix: Bits)
    requires Oversize(ctx, prefix) && Multiple(|prefix|, ctx.l)
    ensures WideSubtree(ctx.c, ctx.g, ctx.l)
  {
    var w := |prefix|;
    MsbBound(prefix);
    ShlOrder(Pow2(w), Msb(prefix) + 1, ctx.l - 1);
    ShlSum(Msb(prefix), 1, ctx.l - 1);
    ShlAdd(1, w, ctx.l - 1);
    assert WideAt(ctx.c, ctx.g, ctx.l, w);
  }

  function Ones(n: nat): (y: Bits)
    ensures |y| == n
  {
    seq(n, i => true)
  }

  lemma {:induction false} MsbOfOnes(n: nat)
    ensures Msb(Ones(n)) + 1 == Pow2(n)
  {
    if n != 0 {
      MsbOfOnes(n - 1);
      assert Ones(n)[..n - 1] == Ones(n - 1);
    }
  }

  lemma {:induction false} LastWord(ctx: Context)
    requires Full(ctx.c, ctx.g)
    ensures var last := Slot(ctx.g, Pow2(ctx.g) - 1); IsSlot(ctx.c, ctx.g, last) && last.Word() == Ones(ctx.g)
  {
    MsbOfOnes(ctx.g);
    CodeBitsOfMsb(Ones(ctx.g));
  }

  lemma {:induction false} WideIsOversize(ctx: Context, w: nat)
    requires Full(ctx.c, ctx.g) && 1 <= ctx.l && WideAt(ctx.c, ctx.g, ctx.l, w)
    ensures Oversize(ctx, Ones(w))
  {
    MsbOfOnes(w);
    RoomLeft(ctx.c, ctx.g, w + ctx.l);
    ShlAdd(1, w, ctx.l);
    ShlAdd(1, w, ctx.l - 1);
    ShlSum(Msb(Ones(w)), 1, ctx.l - 1);
  }

  /** From any table on the way of the all-ones word down to depth w, the lookup fails:
      a table too wide is indexed by more bits than its links were stored for. */
  lemma {:induction false} OnesLost(ctx: Context, tables: Tables, meta: seq<Meta>, stack: seq<nat>, t: nat, size: nat, buffer: nat, w: nat)
    requires TreeOk(ctx, tables, meta, stack, Slot(ctx.g, Pow2(ctx.g)))
    requires WideAt(ctx.c, ctx.g, ctx.l, w) && t < |meta| && ctx.g <= BMAX
    requires meta[t].prefix == Ones(|meta[t].prefix|) && |meta[t].prefix| <= w
    requires size == if meta[t].prefix == [] then ctx.l else meta[t].size
    requires ToBits(buffer, ctx.g - |meta[t].prefix|) == Ones(ctx.g - |meta[t].prefix|)
    ensures Lookup(tables, t, size, buffer) == Garbage
    decreases |tables| - t
  {
    hide LeafOk, LinkOk, Populated, Lookup, ToBits, Shr, Mask, Lsb, Shl, CodeBits, First, End, HighCellsOk, CellsOk;
    var u := |meta[t].prefix|;
    assert SizeOk(ctx, meta[t]) && Multiple(u, ctx.l);
    if u == w {
      WideIsOversize(ctx, w);
    }
    if meta[t].prefix != [] && meta[t].size > ctx.l {
      HighIndexIsUnset(ctx, tables, meta, t, buffer);
    } else {
      MultipleGap(u, w, ctx.l);
      if u == 0 { RootIsWide(ctx, meta[t]); }
      OnesLink(ctx, tables, meta, stack, t, size, buffer);
      var t' := tables[t][Lsb(Ones(ctx.l))].v;
      hide TreeOk, WideAt, SizeOk;
      OnesLost(ctx, tables, meta, stack, t', meta[t'].size, Shr(buffer, ctx.l), w);
    }
  }

  lemma {:induction false} OnesLink(ctx: Context, tables: Tables, meta: seq<Meta>, stack: seq<nat>, t: nat, size: nat, buffer: nat)
    requires TreeOk(ctx, tables, meta, stack, Slot(ctx.g, Pow2(ctx.g)))
    requires t < |meta| && meta[t].prefix == Ones(|meta[t].prefix|) && |meta[t].prefix| + ctx.l < ctx.g
    requires meta[t].prefix == [] || meta[t].size <= ctx.l
    requires size == if meta[t].prefix == [] then ctx.l else meta[t].size
    requires ToBits(buffer, ctx.g - |meta[t].prefix|) == Ones(ctx.g - |meta[t].prefix|)
    ensures Lsb(Ones(ctx.l)) < |tables[t]| && tables[t][Lsb(Ones(ctx.l))].Huft?
    ensures var t' := tables[t][Lsb(Ones(ctx.l))].v;
            t < t' < |tables| && meta[t'].prefix == Ones(|meta[t].prefix| + ctx.l)
            && ToBits(Shr(buffer, ctx.l), ctx.g - |meta[t].prefix| - ctx.l) == Ones(ctx.g - |meta[t].prefix| - ctx.l)
            && (Lookup(tables, t', meta[t'].size, Shr(buffer, ctx.l)) == Garbage ==> Lookup(tables, t, size, buffer) == Garbage)
  {
    hide LeafOk, Populated, Lookup, ToBits, Shr, Mask, Lsb, Shl, CodeBits, First, End, HighCellsOk, Oversize, Multiple;
    var u := |meta[t].prefix|;
    var last := Slot(ctx.g, Pow2(ctx.g) - 1);
    LastWord(ctx);
    assert Done(ctx, Slot(ctx.g, Pow2(ctx.g)), last);
    assert SizeOk(ctx, meta[t]) && LinkOk(ctx, tables, meta, t, last);
    IndexBits(buffer, Ones(ctx.g - u), ctx.l);
    var next := Ones(ctx.g)[..u + ctx.l];
    assert next == Ones(u + ctx.l) && next[u..] == Ones(ctx.l) && Ones(ctx.g)[..u] == Ones(u);
    assert Ones(ctx.g - u)[..ctx.l] == Ones(ctx.l) && Ones(ctx.g - u)[ctx.l..] == Ones(ctx.g - u - ctx.l);
    assert ToBits(buffer, ctx.l)[..ctx.l] == ToBits(buffer, ctx.l);
    LinkLookup(ctx, tables, meta, t, next, buffer);
  }

  lemma {:induction false} HighIndexIsUnset(ctx: Context, tables: Tables, meta: seq<Meta>, t: nat, buffer: nat)
    requires ContextOk(ctx) && Shaped(tables, meta) && HighCellsOk(ctx, tables, meta, Slot(ctx.g, Pow2(ctx.g)))
    requires t < |meta| && meta[t].size > ctx.l
    requires meta[t].prefix == Ones(|meta[t].prefix|) && |meta[t].prefix| + ctx.l < ctx.g
    requires ToBits(buffer, ctx.g - |meta[t].prefix|) == Ones(ctx.g - |meta[t].prefix|)
    ensures Lookup(tables, t, meta[t].size, buffer) == Garbage
  {
    var u := |meta[t].prefix|;
    var n := ctx.g - u;
    var y := ToBits(buffer, meta[t].size);
    IndexBits(buffer, Ones(n), meta[t].size);
    assert y[..ctx.l + 1] == Ones(n)[..ctx.l + 1];
    assert y[ctx.l] == y[..ctx.l + 1][ctx.l] == true;
    assert y[ctx.l..][0] == true;
    LastWord(ctx);
    var last := Slot(ctx.g, Pow2(ctx.g) - 1);
    forall s | Done(ctx, Slot(ctx.g, Pow2(ctx.g)), s) && u < s.len <= u + ctx.l
      ensures !Fills(meta[t], s, y)
    {
      if Fills(meta[t], s, y) {
        assert s.Word() == (meta[t].prefix + y)[..s.len] == meta[t].prefix + y[..s.len - u];
        assert y[..s.len - u] == Ones(n)[..s.len - u];
        assert s.Word() == Ones(ctx.g)[..s.len];
        PrefixFree(ctx.c, ctx.g, s, last);
        assert false;
      }
    }
    assert !Covered(ctx, meta[t], Slot(ctx.g, Pow2(ctx.g)), y);
    assert CellIs(tables[t], y, Unset);
  }
}