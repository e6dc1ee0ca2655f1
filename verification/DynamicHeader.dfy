/** The header of a block with dynamic codes, section 3.2.7 of RFC 1951: the code lengths of
    the two alphabets, run-length coded and themselves Huffman coded. */
module DynamicHeader {
  import opened Bits
  import opened Canonical
  import opened HuffmanTree
  import opened HuffmanBuild
  import opened HuffmanMain
  import opened BitReader
  import opened Inflate
  import opened InflateCodes
  import opened Blocks

  // ---------- The format ----------

  const CODES := 19

  /** The order in which the lengths of the code length code are sent. */
  function Border(): (r: seq<nat>)
    ensures |r| == CODES
  {
    [16, 17, 18, 0, 8, 7, 9, 6, 10, 5, 11, 4, 12, 3, 13, 2, 14, 1, 15]
  }

  /** The position of a symbol in that order. */
  function BorderRank(): (r: seq<nat>)
    ensures |r| == CODES
  {
    [3, 17, 15, 13, 11, 9, 7, 5, 4, 6, 8, 10, 12, 14, 16, 18, 0, 1, 2]
  }

  lemma BorderInverse(i: nat)
    requires i < CODES
    ensures Border()[i] < CODES && BorderRank()[Border()[i]] == i
    ensures BorderRank()[i] < CODES && Border()[BorderRank()[i]] == i
  {
  }

  /** One item of the coded lengths: a length, the last length again, or a gap of zeros. */
  datatype Run = Len(n: nat) | Again(more: Bits) | ShortGap(more: Bits) | LongGap(more: Bits) {
    function Sym(): nat {
      match this
      case Len(n) => n
      case Again(_) => 16
      case ShortGap(_) => 17
      case LongGap(_) => 18
    }

    function More(): Bits {
      if Len? then [] else more
    }

    ghost predicate Ok(cl: seq<nat>) {
      && Coded(cl, Sym())
      && match this
         case Len(n) => n < 16
         case Again(more) => |more| == 2
         case ShortGap(more) => |more| == 3
         case LongGap(more) => |more| == 7
    }

    ghost function Encode(cl: seq<nat>): Bits
      requires Ok(cl)
    {
      Word(cl, Sym()) + More()
    }

    /** The lengths it stands for, after the length `last`. */
    ghost function Lengths(last: nat): (r: seq<nat>)
      ensures r != []
    {
      match this
      case Len(n) => [n]
      case Again(more) => Repeat(last, 3 + Lsb(more))
      case ShortGap(more) => Repeat(0, 3 + Lsb(more))
      case LongGap(more) => Repeat(0, 11 + Lsb(more))
    }
  }

  function Repeat(v: nat, n: nat): (r: seq<nat>)
    ensures |r| == n && forall i :: 0 <= i < n ==> r[i] == v
  {
    seq(n, i => v)
  }

  ghost predicate RunsOk(cl: seq<nat>, runs: seq<Run>) {
    forall i :: 0 <= i < |runs| ==> runs[i].Ok(cl)
  }

  ghost function EncodeRuns(cl: seq<nat>, runs: seq<Run>): Bits
    requires RunsOk(cl, runs)
  {
    if runs == [] then [] else runs[0].Encode(cl) + EncodeRuns(cl, runs[1..])
  }

  function Last(s: seq<nat>): nat { if s == [] then 0 else s[|s| - 1] }

  /** All lengths that the runs stand for. */
  ghost function Expand(runs: seq<Run>): seq<nat> {
    if runs == [] then []
    else
      var s := Expand(runs[..|runs| - 1]);
      s + runs[|runs| - 1].Lengths(Last(s))
  }

  /** The fixed part: how many lengths there are, and the code length code. */
  datatype Fields = Fields(nl: nat, nd: nat, nb: nat, cl: seq<nat>) {
    ghost predicate Ok() {
      && 257 <= nl <= 286 && 1 <= nd <= 30 && 4 <= nb <= CODES && |cl| == CODES
      && (forall i :: 0 <= i < CODES ==> cl[i] < 8)
      && (forall i :: nb <= i < CODES ==> cl[Border()[i]] == 0)
    }

    ghost function Encode(): (r: Bits)
      requires Ok()
      ensures |r| == 14 + 3 * nb
    {
      ToBits(nl - 257, 5) + ToBits(nd - 1, 5) + ToBits(nb - 4, 4) + LengthBits(cl, nb)
    }
  }

  ghost function LengthBits(cl: seq<nat>, n: nat): (r: Bits)
    requires n <= CODES == |cl|
    ensures |r| == 3 * n
  {
    if n == 0 then [] else LengthBits(cl, n - 1) + ToBits(cl[Border()[n - 1]], 3)
  }

  // ---------- Reading the fixed part ----------

  /** The lengths of the code length code that nb triples of bits give. */
  ghost function LengthsIn(bits: Bits, nb: nat): (cl: seq<nat>)
    requires 3 * nb <= |bits| && nb <= CODES
    ensures |cl| == CODES
  {
    seq(CODES, sym requires 0 <= sym < CODES => Triple(bits, nb, BorderRank()[sym]))
  }

  /** The i-th of nb triples of bits; 0 behind them. */
  ghost function Triple(bits: Bits, nb: nat, i: nat): nat {
    if i < nb && 3 * i + 3 <= |bits| then Lsb(bits[3 * i..3 * i + 3]) else 0
  }

  /** What the bits at the start of a block say. */
  ghost predicate FieldsIn(before: Bits, h: Fields) {
    && |before| >= 14 && h.nl == 257 + Lsb(before[..5]) && h.nd == 1 + Lsb(before[5..10]) && h.nb == 4 + Lsb(before[10..14])
    && h.nb <= CODES && |before| >= 14 + 3 * h.nb && h.cl == LengthsIn(before[14..], h.nb)
  }

  lemma {:induction false} TripleOf(cl: seq<nat>, n: nat, i: nat)
    requires i < n <= CODES == |cl|
    ensures LengthBits(cl, n)[3 * i..3 * i + 3] == ToBits(cl[Border()[i]], 3)
  {
    hide ToBits, Border;
    if i < n - 1 {
      TripleOf(cl, n - 1, i);
      assert LengthBits(cl, n)[3 * i..3 * i + 3] == LengthBits(cl, n - 1)[3 * i..3 * i + 3];
    }
  }

  lemma ValueOf(v: nat, n: nat)
    requires v < Pow2(n)
    ensures Lsb(ToBits(v, n)) == v
  {
    LsbOfToBits(v, n);
    SmallMask(v, n);
  }

  /** Sent lengths are read back, each for its own symbol. */
  lemma {:induction false} LengthsRoundTrip(h: Fields, x: Bits)
    requires h.Ok()
    ensures LengthsIn(LengthBits(h.cl, h.nb) + x, h.nb) == h.cl
  {
    hide ToBits, Lsb, Border, BorderRank;
    var bits := LengthBits(h.cl, h.nb) + x;
    forall sym: nat | sym < CODES
      ensures LengthsIn(bits, h.nb)[sym] == h.cl[sym]
    {
      var i := BorderRank()[sym];
      BorderInverse(sym);
      if i < h.nb {
        TripleOf(h.cl, h.nb, i);
        assert bits[3 * i..3 * i + 3] == LengthBits(h.cl, h.nb)[3 * i..3 * i + 3];
        Powers();
        ValueOf(h.cl[sym], 3);
      }
    }
  }

  lemma FieldsRoundTrip(h: Fields, x: Bits)
    requires h.Ok()
    ensures FieldsIn(h.Encode() + x, h)
  {
    hide ToBits, Lsb, LengthBits, LengthsIn;
    var before := h.Encode() + x;
    Powers();
    ValueOf(h.nl - 257, 5);
    ValueOf(h.nd - 1, 5);
    ValueOf(h.nb - 4, 4);
    assert before[..5] == ToBits(h.nl - 257, 5);
    assert before[5..10] == ToBits(h.nd - 1, 5);
    assert before[10..14] == ToBits(h.nb - 4, 4);
    assert before[14..] == LengthBits(h.cl, h.nb) + x;
    LengthsRoundTrip(h, x);
  }

  lemma TripleBound(bits: Bits, nb: nat)
    requires 3 * nb <= |bits| && nb <= CODES
    ensures forall i :: 0 <= i < CODES ==> LengthsIn(bits, nb)[i] < 8
    ensures forall i :: nb <= i < CODES ==> Border()[i] < CODES && LengthsIn(bits, nb)[Border()[i]] == 0
  {
    hide Lsb, Border, BorderRank;
    Powers();
    forall i: nat | i < CODES
      ensures LengthsIn(bits, nb)[i] < 8
      ensures nb <= i ==> Border()[i] < CODES && LengthsIn(bits, nb)[Border()[i]] == 0
    {
      BorderInverse(i);
      var j := BorderRank()[i];
      if j < nb { LsbBound(bits[3 * j..3 * j + 3]); }
    }
  }

  /** The lengths of the code length code. */
  method ReadCodeLengths(reader: Reader, nb: nat) returns (ok: bool, cl: seq<nat>)
    requires reader.Valid() && nb <= CODES
    modifies reader
    ensures reader.Valid()
    ensures ok <==> 3 * nb <= |old(reader.Unread())|
    ensures ok ==> cl == LengthsIn(old(reader.Unread()), nb) && reader.Unread() == old(reader.Unread())[3 * nb..]
  {
    hide Lsb, Border, BorderRank, Reader.Valid, Reader.Unread;
    ghost var before := reader.Unread();
    cl := Repeat(0, CODES);
    var j := 0;
    assert before[0..] == before;
    while j < nb
      invariant j <= nb && reader.Valid() && 3 * j <= |before| && reader.Unread() == before[3 * j..]
      invariant FirstStored(before, nb, cl, j)
    {
      var v;
      ok, v := reader.Take(3);
      if !ok {
        return;
      }
      assert before[3 * j..][..3] == before[3 * j..3 * j + 3] && before[3 * j..][3..] == before[3 * (j + 1)..];
      BorderInverse(j);
      StoreNext(before, nb, cl, j);
      cl := cl[Border()[j] := v];
      j := j + 1;
    }
    while j < CODES
      invariant nb <= j <= CODES && FirstStored(before, nb, cl, j)
      invariant reader.Valid() && reader.Unread() == before[3 * nb..]
    {
      BorderInverse(j);
      StoreNext(before, nb, cl, j);
      cl := cl[Border()[j] := 0];
      j := j + 1;
    }
    AllStored(before, nb, cl);
    ok := true;
  }

  /** The first j lengths, in the order in which they are sent, are stored. */
  ghost predicate FirstStored(bits: Bits, nb: nat, cl: seq<nat>, j: nat) {
    |cl| == CODES && forall sym: nat :: sym < CODES && BorderRank()[sym] < j ==> cl[sym] == Triple(bits, nb, BorderRank()[sym])
  }

  lemma StoreNext(bits: Bits, nb: nat, cl: seq<nat>, j: nat)
    requires FirstStored(bits, nb, cl, j) && j < CODES
    ensures Border()[j] < CODES && FirstStored(bits, nb, cl[Border()[j] := Triple(bits, nb, j)], j + 1)
  {
    hide Triple, Border, BorderRank;
    BorderInverse(j);
    forall sym: nat | sym < CODES
      ensures BorderRank()[sym] == j ==> sym == Border()[j]
    {
      BorderInverse(sym);
    }
  }

  lemma AllStored(bits: Bits, nb: nat, cl: seq<nat>)
    requires FirstStored(bits, nb, cl, CODES) && nb <= CODES && 3 * nb <= |bits|
    ensures cl == LengthsIn(bits, nb)
  {
    hide Triple, Border, BorderRank;
    forall sym: nat | sym < CODES
      ensures BorderRank()[sym] < CODES
    {
      BorderInverse(sym);
    }
  }

  /** What was read encodes to the bits it was read from. */
  lemma {:induction false} LengthsAreSent(bits: Bits, nb: nat, n: nat)
    requires n <= nb <= CODES && 3 * nb <= |bits|
    ensures LengthBits(LengthsIn(bits, nb), n) == bits[..3 * n]
  {
    hide ToBits, Lsb, Border, BorderRank;
    if n > 0 {
      LengthsAreSent(bits, nb, n - 1);
      BorderInverse(n - 1);
      ToBitsOfLsb(bits[3 * (n - 1)..3 * n]);
      assert bits[..3 * n] == bits[..3 * (n - 1)] + bits[3 * (n - 1)..3 * n];
    }
  }

  lemma FieldsAreSent(before: Bits, h: Fields)
    requires FieldsIn(before, h) && h.nl <= 286 && h.nd <= 30
    ensures h.Ok() && before == h.Encode() + before[14 + 3 * h.nb..]
  {
    hide ToBits, Lsb, LengthBits, LengthsIn, Border;
    TripleBound(before[14..], h.nb);
    LengthsAreSent(before[14..], h.nb, h.nb);
    ToBitsOfLsb(before[..5]);
    ToBitsOfLsb(before[5..10]);
    ToBitsOfLsb(before[10..14]);
    assert before[14..][..3 * h.nb] == before[14..14 + 3 * h.nb];
    assert before == before[..5] + before[5..10] + before[10..14] + before[14..14 + 3 * h.nb] + before[14 + 3 * h.nb..];
  }

  // ---------- The table of the code length code ----------

  ghost predicate CodeLengthsOk(cl: seq<nat>) {
    |cl| == CODES && forall i :: 0 <= i < CODES ==> cl[i] < 8
  }

  /** The root table alone decodes. */
  ghost predicate SingleLevel(tables: Tables, size: nat, cl: seq<nat>) {
    1 <= size <= 7 && |tables| >= 1 && forall buffer: nat :: CellOf(tables[0], size, cl, buffer)
  }

  /** The cell of a buffer names the symbol that the buffer starts with and its length; if it
      starts with none, the cell names some symbol all the same. */
  ghost predicate CellOf(table: seq<Huft>, size: nat, cl: seq<nat>, buffer: nat) {
    && Mask(buffer, size) < |table|
    && var r := table[Mask(buffer, size)];
       r.Huft? && r.e == 16 && r.v < CODES && 1 <= r.b <= size
       && (NoWord(cl, buffer) || (Starts(cl, r.v, buffer) && r.b == cl[r.v]))
  }

  /** What the build for the code length code accepts, junk being what its symbol array held:
      a complete code, or a single one-bit code if the junk behind it is a symbol. */
  ghost predicate LevelOk(cl: seq<nat>, junk: seq<nat>) {
    Complete(cl) || (Lone(cl) && |junk| > 1 && junk[1] < CODES)
  }

  lemma {:induction false} CompleteIsFull(lens: seq<nat>)
    requires LengthsOk(lens) && Complete(lens)
    ensures Full(Padded(lens), MaxLen(lens)) && PrefixCode(lens)
  {
    hide Counts, Longest, Padded;
    CompleteFits(lens);
    OversubscribedEarly(lens);
    PaddedIsFull(lens);
    SymbolCodes(lens);
  }

  lemma {:induction false} CompleteHasSymbol(lens: seq<nat>, buffer: nat) returns (sym: nat)
    requires LengthsOk(lens) && Complete(lens)
    ensures Starts(lens, sym, buffer)
  {
    hide Counts, Longest, Padded, Full, Starts;
    CompleteIsFull(lens);
    if NoWord(lens, buffer) {
      var s := LeftOver(lens, buffer);
      SymbolOrPadding(lens, s);
    }
    sym :| Starts(lens, sym, buffer);
  }

  /** The root's cell for a code word no longer than the first lookup. */
  lemma {:induction false} RootCell(ctx: Context, tables: Tables, meta: seq<Meta>, s: Slot, buffer: nat)
    requires Finished(ctx, tables, meta) && meta != [] && ctx.l == ctx.g <= BMAX
    requires IsSlot(ctx.c, ctx.g, s) && ToBits(buffer, s.len) == s.Word() && Codable(ctx.coding, Place(ctx.c, s))
    ensures |tables| >= 1 && Mask(buffer, ctx.l) < |tables[0]| && tables[0][Mask(buffer, ctx.l)] == EntryOf(ctx, s, s.len)
  {
    hide HighCellsOk, Populated, Oversize, LeafOk, CodeBits, ToBits, Mask, EntryOf, Multiple;
    var stack :| stack != [] && TreeOk(ctx, tables, meta, stack, Slot(ctx.g, Pow2(ctx.g)));
    RootIsWide(ctx, meta[0]);
    assert s.Word()[0..] == s.Word();
    assert Done(ctx, Slot(ctx.g, Pow2(ctx.g)), s) by { SlotMsb(ctx.c, ctx.g, s); }
    assert LeafOk(ctx, tables, meta, 0, s) && SizeOk(ctx, meta[0]);
    LeafLookup(ctx, tables, meta, s, 0, ctx.l, buffer);
  }

  lemma {:induction false} BuiltInOneLevel(cl: seq<nat>, order: seq<nat>, tables: Tables, meta: seq<Meta>)
    requires CodeLengthsOk(cl) && (Complete(cl) || Lone(cl)) && Built(cl, CODES, NoExtras, 7, tables, meta, order)
    ensures SingleLevel(tables, LookupBits(cl, 7), cl)
  {
    hide Counts, Longest, Padded, Full, Finished, Starts, Mask, AllCodable, EntryOf, ToBits, CodeBits, Sorted, NoWord, Lone, Complete;
    var ctx := CodeContext(cl, 7, Coding(order, CODES, NoExtras));
    ShortCode(cl);
    FinishedHasTables(ctx, tables, meta);
    forall buffer: nat
      ensures CellOf(tables[0], ctx.l, cl, buffer)
    {
      if NoWord(cl, buffer) {
        var s := LeftOver(cl, buffer);
        LeftOverEntry(cl, order, s, buffer);
        RootCell(ctx, tables, meta, s, buffer);
      } else {
        var sym := SomeWord(cl, buffer);
        StartsSlot(cl, sym, buffer);
        SymbolIsSlot(cl, sym);
        EntryOfSymbol(cl, order, sym);
        RootCell(ctx, tables, meta, SlotOf(cl, sym), buffer);
      }
    }
  }

  lemma SomeWord(cl: seq<nat>, buffer: nat) returns (sym: nat)
    requires !NoWord(cl, buffer)
    ensures Starts(cl, sym, buffer)
  {
    hide Starts;
    sym :| Starts(cl, sym, buffer);
  }

  /** The word left over by a lone code has an entry of one bit for some symbol. */
  lemma {:induction false} LeftOverEntry(cl: seq<nat>, order: seq<nat>, s: Slot, buffer: nat)
    requires CodeLengthsOk(cl) && (Complete(cl) || Lone(cl)) && NoWord(cl, buffer) && Sorted(cl, order)
    requires var ctx := CodeContext(cl, 7, Coding(order, CODES, NoExtras)); AllCodable(ctx) && Full(ctx.c, ctx.g) && IsSlot(ctx.c, ctx.g, s)
    requires s.code >= End(Counts(cl), s.len)
    ensures var ctx := CodeContext(cl, 7, Coding(order, CODES, NoExtras)); var r := EntryOf(ctx, s, s.len);
            Codable(ctx.coding, Place(ctx.c, s)) && r.Huft? && r.e == 16 && r.b == 1 && r.v < CODES && s.len == 1
  {
    ShortCode(cl);
    if Complete(cl) {
      var sym := CompleteHasSymbol(cl, buffer);
      assert false;
    }
    LoneFacts(cl);
    hide Counts, Longest, Padded, Full, Used, Complete;
    assert Place(Padded(cl), s) == s.code == 1;
  }

  lemma StartsSlot(cl: seq<nat>, sym: nat, buffer: nat)
    requires Starts(cl, sym, buffer)
    ensures Coded(cl, sym) && ToBits(buffer, cl[sym]) == SlotOf(cl, sym).Word()
  {
  }

  lemma EntryOfSymbol(cl: seq<nat>, order: seq<nat>, sym: nat)
    requires LengthsOk(cl) && |cl| == CODES && Coded(cl, sym) && Sorted(cl, order)
    ensures var ctx := CodeContext(cl, 7, Coding(order, CODES, NoExtras)); var s := SlotOf(cl, sym);
            Codable(ctx.coding, Place(ctx.c, s)) && EntryOf(ctx, s, s.len) == Huft(16, cl[sym], sym)
  {
    hide Counts, Longest, Padded;
    SymbolIsSlot(cl, sym);
    assert Listed(cl, order, sym);
  }

  /** Seven bits are enough for every code of such lengths. */
  lemma ShortCode(cl: seq<nat>)
    requires CodeLengthsOk(cl)
    ensures LengthsOk(cl) && MaxLen(cl) <= 7
    ensures MaxLen(cl) > 0 ==> LookupBits(cl, 7) == MaxLen(cl)
    ensures forall sym: nat :: sym < CODES ==> cl[sym] <= MaxLen(cl)
  {
    hide Counts, Longest, Shortest;
    if MaxLen(cl) > 7 {
      NoLongerCodes(cl, MaxLen(cl));
    }
    forall sym: nat | sym < CODES
      ensures cl[sym] <= MaxLen(cl)
    {
      UsedLength(cl, sym);
    }
  }

  lemma {:induction false} NoneOfLength(lens: seq<nat>, k: nat)
    requires forall i :: 0 <= i < |lens| ==> lens[i] != k
    ensures Count(lens, k) == 0
  {
    if lens != [] { NoneOfLength(lens[..|lens| - 1], k); }
  }

  lemma NoLongerCodes(cl: seq<nat>, k: nat)
    requires CodeLengthsOk(cl) && 8 <= k <= BMAX
    ensures Counts(cl)[k] == 0
  {
    NoneOfLength(cl, k);
  }

  /** The build for the code length code. */
  method BuildLevel(cl: seq<nat>, junk: seq<nat>) returns (code: int, tables: Tables, bits: nat)
    requires CodeLengthsOk(cl) && |junk| == CODES
    ensures code == 0 && tables != [] <==> LevelOk(cl, junk)
    ensures LevelOk(cl, junk) ==> SingleLevel(tables, bits, cl)
  {
    hide Complete, MaxLen, AllCodable, Sorted, Finished, ContextOk, CodeContext, Lone, SingleLevel, InExtras, PlainExtras, LevelOk;
    ShortCode(cl);
    NoExtrasNeeded(junk);
    NoExtrasNeeded(seq(CODES, i => i));
    ghost var meta, order;
    code, tables, bits, meta, order := HuftBuild(cl, CODES, NoExtras, 7, junk);
    LevelResult(cl, order, code, tables, bits, meta, junk);
  }

  lemma NoExtrasNeeded(order: seq<nat>)
    ensures InExtras(Coding(order, CODES, NoExtras)) && PlainExtras(NoExtras)
  {
  }

  lemma {:induction false} LevelResult(cl: seq<nat>, order: seq<nat>, code: int, tables: Tables, bits: nat, meta: seq<Meta>, junk: seq<nat>)
    requires CodeLengthsOk(cl) && BuildResult(cl, Coding(order, CODES, NoExtras), 7, code, tables, bits, meta)
    requires MaxLen(cl) > 0 ==> JunkBehind(cl, order, junk)
    ensures code == 0 && tables != [] <==> LevelOk(cl, junk)
    ensures LevelOk(cl, junk) ==> SingleLevel(tables, bits, cl)
  {
    hide Counts, Padded, Longest, Shortest, Used, Complete, AllCodable, Sorted, Oversubscribed, Finished, Wide, Full, SingleLevel, LookupBits;
    ShortCode(cl);
    var coding := Coding(order, CODES, NoExtras);
    if Complete(cl) {
      CompleteFits(cl);
      CompleteUsed(cl);
      WellUsedCodable(cl, 7, coding);
      FinishedHasTables(CodeContext(cl, 7, coding), tables, meta);
      BuiltInOneLevel(cl, order, tables, meta);
    } else if Lone(cl) {
      LoneFacts(cl);
      LoneCodable(cl, 7, coding);
      JunkEntry(cl, order, junk);
      if code != 2 {
        FinishedHasTables(CodeContext(cl, 7, coding), tables, meta);
        BuiltInOneLevel(cl, order, tables, meta);
      }
    } else {
      NoLevel(cl, coding, code, tables, bits, meta);
    }
  }

  lemma JunkEntry(cl: seq<nat>, order: seq<nat>, junk: seq<nat>)
    requires |cl| == CODES && JunkBehind(cl, order, junk) && Used(cl) == 1
    ensures HasEntry(Coding(order, CODES, NoExtras), order[1]) <==> junk[1] < CODES
  {
  }

  lemma NoLevel(cl: seq<nat>, coding: Coding, code: int, tables: Tables, bits: nat, meta: seq<Meta>)
    requires CodeLengthsOk(cl) && BuildResult(cl, coding, 7, code, tables, bits, meta) && !Complete(cl) && !Lone(cl)
    ensures code != 0 || tables == []
  {
    NotUsable(cl, coding, 7, code, tables, bits, meta);
  }

  lemma CompleteUsed(cl: seq<nat>)
    requires Complete(cl)
    ensures MaxLen(cl) > 0 && WellUsed(cl)
  {
  }

  // ---------- Reading the runs ----------

  /** No symbol stands there. */
  ghost predicate NoRun(cl: seq<nat>, bits: Bits) {
    forall sym: nat :: Coded(cl, sym) ==> !(Word(cl, sym) <= bits)
  }

  /** The next symbol: NEEDBITS, one cell, DUMPBITS; stray tells that no symbol has the word
      there. */
  method RunSymbol(reader: Reader, tables: Tables, size: nat, ghost cl: seq<nat>) returns (ok: bool, sym: nat, ghost stray: bool)
    requires reader.Valid() && SingleLevel(tables, size, cl) && CodeLengthsOk(cl)
    modifies reader
    ensures reader.Valid() && sym < CODES
    ensures ok && !stray ==> Coded(cl, sym) && cl[sym] <= 7 && old(reader.Unread()) == Word(cl, sym) + reader.Unread()
    ensures stray ==> ok && !Complete(cl) && NoRun(cl, old(reader.Unread()))
    ensures !ok ==> |old(reader.Unread())| < 7
  {
    hide Lsb, Mask, Shr, Starts, Reader.Valid, Reader.Unread, Word, NoWord, Complete, CodeLengthsOk;
    sym, stray := 0, false;
    ok := reader.Need(size);
    if !ok {
      return;
    }
    ghost var before := reader.Unread();
    assert CellOf(tables[0], size, cl, Lsb(before));
    var r := tables[0][Mask(reader.b, size)];
    stray := NoWord(cl, Lsb(before));
    if stray {
      StrayRun(cl, before);
    } else {
      SymbolStarts(cl, r.v, before);
    }
    reader.Dump(r.b);
    sym := r.v;
    assert before == before[..r.b] + before[r.b..];
  }

  lemma StrayRun(cl: seq<nat>, before: Bits)
    requires CodeLengthsOk(cl) && NoWord(cl, Lsb(before))
    ensures !Complete(cl) && NoRun(cl, before)
  {
    hide Lsb, Starts, Word, Complete;
    ShortCode(cl);
    if Complete(cl) {
      var sym := CompleteHasSymbol(cl, Lsb(before));
    }
    forall sym: nat | Coded(cl, sym)
      ensures !(Word(cl, sym) <= before)
    {
      StartsIsPrefix(cl, sym, before);
    }
  }

  lemma SymbolStarts(cl: seq<nat>, sym: nat, before: Bits)
    requires Starts(cl, sym, Lsb(before)) && cl[sym] <= |before|
    ensures Coded(cl, sym) && Word(cl, sym) == before[..cl[sym]]
  {
    StartsIsPrefix(cl, sym, before);
  }

  datatype RunStep = RunDone | RunTooLong | RunShort

  /** One run: its lengths go behind the i that are there already. */
  method ReadRun(reader: Reader, tables: Tables, size: nat, ll: array<nat>, i: nat, l: nat, n: nat, ghost cl: seq<nat>)
    returns (step: RunStep, i': nat, l': nat, ghost run: Run, ghost stray: bool)
    requires reader.Valid() && SingleLevel(tables, size, cl) && CodeLengthsOk(cl)
    requires i < n <= ll.Length && l == Last(ll[..i])
    modifies reader, ll
    ensures reader.Valid()
    ensures stray ==> !Complete(cl) && NoRun(cl, old(reader.Unread()))
    ensures step == RunShort && !stray ==> |old(reader.Unread())| < 14
    ensures step != RunShort && !stray ==>
              run.Ok(cl) && old(reader.Unread()) == run.Encode(cl) + reader.Unread()
              && (step == RunDone <==> i + |run.Lengths(l)| <= n)
    ensures run.Len? ==> run.n < 16
    ensures step == RunDone ==> i' <= n && ll[..i'] == old(ll[..i]) + run.Lengths(l) && l' == Last(ll[..i'])
  {
    hide Lsb, Reader.Valid, Reader.Unread, Word, SingleLevel, Complete, NoRun, CodeLengthsOk;
    ghost var before := reader.Unread();
    i', l', run := i, l, Len(0);
    var ok, j, more;
    ok, j, stray := RunSymbol(reader, tables, size, cl);
    if !ok {
      return RunShort, i', l', run, stray;
    }
    ghost var u := reader.Unread();
    if j < 16 {
      run := Len(j);
      assert !stray ==> before == run.Encode(cl) + u;
      ll[i] := j;
      return RunDone, i + 1, j, run, stray;
    }
    var e := if j == 16 then 2 else if j == 17 then 3 else 7;
    ok, more := reader.Take(e);
    if !ok {
      return RunShort, i', l', run, stray;
    }
    ghost var d := u[..e];
    run := if j == 16 then Again(d) else if j == 17 then ShortGap(d) else LongGap(d);
    assert !stray ==> before == run.Encode(cl) + reader.Unread();
    var v: nat := if j == 16 then l else 0;
    var count: nat := if j == 18 then 11 + more else 3 + more;
    assert run.Lengths(l) == Repeat(v, count);
    if i + count > n {
      return RunTooLong, i', l', run, stray;
    }
    PutLengths(ll, i, count, v);
    return RunDone, i + count, v, run, stray;
  }

  method PutLengths(ll: array<nat>, i: nat, count: nat, v: nat)
    requires i + count <= ll.Length
    modifies ll
    ensures ll[..i + count] == old(ll[..i]) + Repeat(v, count)
  {
    var j := 0;
    while j < count
      invariant j <= count && ll[..i + j] == old(ll[..i]) + Repeat(v, j)
    {
      ll[i + j] := v;
      assert ll[..i + (j + 1)] == ll[..i + j] + [v];
      j := j + 1;
    }
  }

  // ---------- The header ----------

  datatype HeaderResult = GotLengths(lit: seq<nat>, dst: seq<nat>) | Rejected | NeedsMore

  /** The header is read as far as some runs, with `rest` behind them. */
  ghost predicate ReadTo(before: Bits, h: Fields, runs: seq<Run>, rest: Bits) {
    && FieldsIn(before, h) && h.nl <= 286 && h.nd <= 30 && (Complete(h.cl) || Lone(h.cl)) && RunsOk(h.cl, runs)
    && before[14 + 3 * h.nb..] == EncodeRuns(h.cl, runs) + rest
  }

  ghost predicate TooManyCodes(before: Bits) {
    |before| >= 14 && (257 + Lsb(before[..5]) > 286 || 1 + Lsb(before[5..10]) > 30)
  }

  ghost predicate FieldsMissing(before: Bits) {
    |before| < 14 || |before| < 14 + 3 * (4 + Lsb(before[10..14]))
  }

  /** The reading went astray: more lengths were wanted, but no run stands at rest.  Only a
      code with a single one-bit word lets that pass. */
  ghost predicate RunLost(before: Bits, h: Fields, runs: seq<Run>, rest: Bits) {
    ReadTo(before, h, runs, rest) && Lone(h.cl) && |Expand(runs)| < h.nl + h.nd && NoRun(h.cl, rest)
  }

  /** What each result says about the bits; a run that leads beyond the last length is the
      last one of `runs` when the header is rejected for it.  junk is what the symbol array
      of the build held. */
  ghost predicate HeaderReport(before: Bits, r: HeaderResult, h: Fields, runs: seq<Run>, rest: Bits, junk: seq<nat>, astray: bool) {
    if astray then RunLost(before, h, runs, rest) && LevelOk(h.cl, junk)
    else
      match r
      case GotLengths(lit, dst) =>
        ReadTo(before, h, runs, rest) && LevelOk(h.cl, junk) && Expand(runs) == lit + dst && |lit| == h.nl && |dst| == h.nd
      case Rejected =>
        || TooManyCodes(before)
        || (FieldsIn(before, h) && !LevelOk(h.cl, junk))
        || (ReadTo(before, h, runs, rest) && runs != []
            && |Expand(runs[..|runs| - 1])| < h.nl + h.nd < |Expand(runs)|)
      case NeedsMore =>
        || FieldsMissing(before)
        || (ReadTo(before, h, runs, rest) && |Expand(runs)| < h.nl + h.nd && |rest| < 14)
  }

  lemma {:induction false} EncodeOneMoreRun(cl: seq<nat>, runs: seq<Run>, run: Run)
    requires RunsOk(cl, runs) && run.Ok(cl)
    ensures EncodeRuns(cl, runs + [run]) == EncodeRuns(cl, runs) + run.Encode(cl)
  {
    hide Run.Encode, Run.Ok;
    if runs == [] {
      assert [run][1..] == [];
    } else {
      assert (runs + [run])[1..] == runs[1..] + [run];
      EncodeOneMoreRun(cl, runs[1..], run);
    }
  }

  /** The three counts. */
  method ReadCounts(reader: Reader) returns (ok: bool, nl: nat, nd: nat, nb: nat)
    requires reader.Valid()
    modifies reader
    ensures reader.Valid()
    ensures ok <==> 14 <= |old(reader.Unread())|
    ensures ok ==> var before := old(reader.Unread());
                   nl == 257 + Lsb(before[..5]) && nd == 1 + Lsb(before[5..10]) && nb == 4 + Lsb(before[10..14]) <= CODES
                   && reader.Unread() == before[14..]
  {
    hide Lsb, Reader.Valid, Reader.Unread;
    ghost var before := reader.Unread();
    var v;
    nl, nd, nb := 0, 0, 0;
    ok, v := reader.Take(5);
    if !ok {
      return;
    }
    nl := 257 + v;
    ok, v := reader.Take(5);
    if !ok {
      return;
    }
    nd := 1 + v;
    assert before[5..][..5] == before[5..10] && before[5..][5..] == before[10..];
    ok, v := reader.Take(4);
    if !ok {
      return;
    }
    nb := 4 + v;
    assert before[10..][..4] == before[10..14] && before[10..][4..] == before[14..];
    Powers();
    LsbBound(before[10..14]);
  }

  /** inflate_dynamic up to the code lengths. */
  method ReadHeader(reader: Reader, junk: seq<nat>)
    returns (r: HeaderResult, ghost h: Fields, ghost runs: seq<Run>, ghost rest: Bits, ghost astray: bool)
    requires reader.Valid() && |junk| == CODES
    modifies reader
    ensures reader.Valid() && HeaderReport(old(reader.Unread()), r, h, runs, rest, junk, astray)
    ensures r.GotLengths? && !astray ==> reader.Unread() == rest
    ensures r.GotLengths? ==> LengthsOk(r.lit) && LengthsOk(r.dst) && |r.lit| <= 286 && |r.dst| <= 30
  {
    hide Lsb, Reader.Valid, Reader.Unread, Complete, Lone, SingleLevel, EncodeRuns, Expand, RunsOk, LengthsIn, NoRun, LevelOk;
    ghost var before := reader.Unread();
    h, runs, rest, astray := Fields(0, 0, 0, []), [], [], false;
    var ok, nl, nd, nb := ReadCounts(reader);
    if !ok {
      return NeedsMore, h, runs, rest, astray;
    }
    if nl > 286 || nd > 30 {
      return Rejected, h, runs, rest, astray;
    }
    var cl;
    ok, cl := ReadCodeLengths(reader, nb);
    if !ok {
      return NeedsMore, h, runs, rest, astray;
    }
    h := Fields(nl, nd, nb, cl);
    rest := reader.Unread();
    TripleBound(before[14..], nb);
    assert before[14..][3 * nb..] == before[14 + 3 * nb..];
    var code, tables, bits := BuildLevel(cl, junk);
    if code != 0 || tables == [] {
      return Rejected, h, runs, rest, astray;
    }
    LevelIsCode(cl, junk);
    NoRuns(cl);
    var ll := new nat[316];
    r, runs, rest, astray := ReadRuns(reader, tables, bits, ll, nl, nl + nd, before, h);
  }

  /** All runs. */
  method ReadRuns(reader: Reader, tables: Tables, bits: nat, ll: array<nat>, nl: nat, n: nat, ghost before: Bits, ghost h: Fields)
    returns (r: HeaderResult, ghost runs: seq<Run>, ghost rest: Bits, ghost astray: bool)
    requires reader.Valid() && SingleLevel(tables, bits, h.cl) && CodeLengthsOk(h.cl) && ll.Length == 316
    requires nl == h.nl && n == h.nl + h.nd && 257 <= h.nl <= 286 && 1 <= h.nd <= 30
    requires ReadTo(before, h, [], reader.Unread())
    modifies reader, ll
    ensures reader.Valid() && (astray ==> RunLost(before, h, runs, rest))
    ensures !astray ==>
              match r
              case GotLengths(lit, dst) =>
                ReadTo(before, h, runs, rest) && reader.Unread() == rest && Expand(runs) == lit + dst && |lit| == h.nl && |dst| == h.nd
              case Rejected => ReadTo(before, h, runs, rest) && runs != [] && |Expand(runs[..|runs| - 1])| < h.nl + h.nd < |Expand(runs)|
              case NeedsMore => ReadTo(before, h, runs, rest) && |Expand(runs)| < h.nl + h.nd && |rest| < 14
    ensures r.GotLengths? ==> LengthsOk(r.lit) && LengthsOk(r.dst) && |r.lit| <= 286 && |r.dst| <= 30
  {
    hide Lsb, Reader.Valid, Reader.Unread, SingleLevel, Complete, Lone, Expand, NoRun, ReadTo, CodeLengthsOk, RunsOk;
    runs, rest, astray := [], reader.Unread(), false;
    NoRuns(h.cl);
    var i, l := 0, 0;
    while i < n
      invariant reader.Valid() && i <= n && l == Last(ll[..i]) && ShortLengths(ll[..i])
      invariant ReadTo(before, h, runs, rest)
      invariant !astray ==> rest == reader.Unread() && ll[..i] == Expand(runs)
      invariant astray ==> RunLost(before, h, runs, rest)
    {
      var step;
      ghost var run, stray;
      ghost var i0, l0 := i, l;
      step, i, l, run, stray := ReadRun(reader, tables, bits, ll, i, l, n, h.cl);
      if step == RunDone { ShorterLengths(ll[..i], i0, run, l0); }
      if !astray && stray { CodeIsLone(before, h, runs, rest); }
      astray := astray || stray;
      if step == RunShort {
        return NeedsMore, runs, rest, astray;
      }
      if !astray {
        StillRead(before, h, runs, rest, run, reader.Unread());
        ghost var runs0 := runs;
        runs, rest := runs + [run], reader.Unread();
        assert runs[..|runs| - 1] == runs0;
      }
      if step == RunTooLong {
        return Rejected, runs, rest, astray;
      }
    }
    var all := ll[..n];
    r := GotLengths(all[..nl], all[nl..]);
    assert all == r.lit + r.dst;
  }

  lemma LevelIsCode(cl: seq<nat>, junk: seq<nat>)
    requires LevelOk(cl, junk)
    ensures Complete(cl) || Lone(cl)
  {
  }

  lemma CodeIsLone(before: Bits, h: Fields, runs: seq<Run>, rest: Bits)
    requires ReadTo(before, h, runs, rest) && !Complete(h.cl)
    ensures Lone(h.cl)
  {
  }

  lemma NoRuns(cl: seq<nat>)
    ensures RunsOk(cl, []) && EncodeRuns(cl, []) == [] && Expand([]) == []
  {
  }

  lemma StillRead(before: Bits, h: Fields, runs: seq<Run>, rest: Bits, run: Run, left: Bits)
    requires ReadTo(before, h, runs, rest) && run.Ok(h.cl) && rest == run.Encode(h.cl) + left
    ensures ReadTo(before, h, runs + [run], left)
    ensures Expand(runs + [run]) == Expand(runs) + run.Lengths(Last(Expand(runs)))
  {
    hide Complete, Lone, Run.Ok, Run.Encode, FieldsIn, EncodeRuns, Run.Lengths;
    assert (runs + [run])[..|runs|] == runs;
    EncodeOneMoreRun(h.cl, runs, run);
  }

  ghost predicate ShortLengths(s: seq<nat>) {
    forall i :: 0 <= i < |s| ==> s[i] < 16
  }

  lemma ShorterLengths(s: seq<nat>, i: nat, run: Run, last: nat)
    requires i <= |s| && ShortLengths(s[..i]) && s == s[..i] + run.Lengths(last) && last == Last(s[..i]) && (run.Len? ==> run.n < 16)
    ensures ShortLengths(s)
  {
    hide Lsb;
    assert last < 16;
    forall k | 0 <= k < |s|
      ensures s[k] < 16
    {
      if k < i { assert s[k] == s[..i][k]; } else { assert s[k] == run.Lengths(last)[k - i]; }
    }
  }

  // ---------- Every valid header is read ----------

  lemma {:induction false} OneRun(cl: seq<nat>, a: Run, x: Bits, b: Run, y: Bits)
    requires PrefixCode(cl) && a.Ok(cl) && b.Ok(cl) && a.Encode(cl) + x == b.Encode(cl) + y
    ensures a == b && x == y
  {
    hide PrefixCode, Word;
    var before := a.Encode(cl) + x;
    assert Word(cl, a.Sym()) <= before && Word(cl, b.Sym()) <= before;
    SameSymbol(cl, a.Sym(), b.Sym(), before);
    assert |a.Encode(cl)| == |b.Encode(cl)|;
    assert a.Encode(cl) == before[..|a.Encode(cl)|] == b.Encode(cl);
    assert a.More() == a.Encode(cl)[cl[a.Sym()]..] && b.More() == b.Encode(cl)[cl[b.Sym()]..];
    assert x == before[|a.Encode(cl)|..] && y == before[|b.Encode(cl)|..];
  }

  /** Of two run strings that the same bits start with, the shorter starts the longer. */
  lemma {:induction false} OneRunString(cl: seq<nat>, a: seq<Run>, x: Bits, b: seq<Run>, y: Bits)
    requires PrefixCode(cl) && RunsOk(cl, a) && RunsOk(cl, b) && |a| <= |b|
    requires EncodeRuns(cl, a) + x == EncodeRuns(cl, b) + y
    ensures a == b[..|a|] && x == EncodeRuns(cl, b[|a|..]) + y
  {
    hide PrefixCode, Run.Encode, Run.Ok;
    if a == [] {
      assert b[0..] == b;
    } else {
      var x', y' := EncodeRuns(cl, a[1..]) + x, EncodeRuns(cl, b[1..]) + y;
      assert a[0].Encode(cl) + x' == EncodeRuns(cl, a) + x;
      assert b[0].Encode(cl) + y' == EncodeRuns(cl, b) + y;
      OneRun(cl, a[0], x', b[0], y');
      OneRunString(cl, a[1..], x, b[1..], y);
      assert b[1..][|a| - 1..] == b[|a|..];
    }
  }

  lemma {:induction false} ExpandGrows(runs: seq<Run>, k: nat)
    requires k <= |runs|
    ensures |Expand(runs[..k])| <= |Expand(runs)| && (k < |runs| ==> |Expand(runs[..k])| < |Expand(runs)|)
  {
    hide Run.Lengths;
    if k < |runs| {
      ExpandGrows(runs[..|runs| - 1], k);
      assert runs[..|runs| - 1][..k] == runs[..k];
    } else {
      assert runs[..k] == runs;
    }
  }

  /** Only one way of reading runs expands to exactly n lengths, and no way stops short of
      them or beyond them, unless the bits run out. */
  lemma {:induction false} RunsAreRead(cl: seq<nat>, runs: seq<Run>, rest: Bits, sent: seq<Run>, tail: Bits)
    requires PrefixCode(cl) && RunsOk(cl, runs) && RunsOk(cl, sent)
    requires EncodeRuns(cl, runs) + rest == EncodeRuns(cl, sent) + tail
    ensures |Expand(runs)| < |Expand(sent)| ==> |rest| >= |tail|
    ensures |Expand(runs)| == |Expand(sent)| ==> runs == sent && rest == tail
    ensures |Expand(runs)| > |Expand(sent)| ==> runs != [] && |Expand(runs[..|runs| - 1])| >= |Expand(sent)|
  {
    hide PrefixCode, Run.Encode, Run.Ok, Expand;
    if |runs| <= |sent| {
      OneRunString(cl, runs, rest, sent, tail);
      ExpandGrows(sent, |runs|);
      assert |runs| == |sent| ==> sent[|runs|..] == [] && sent[..|runs|] == sent;
    } else {
      OneRunString(cl, sent, tail, runs, rest);
      ExpandGrows(runs, |sent|);
      var front := runs[..|runs| - 1];
      ExpandGrows(front, |sent|);
      assert front[..|sent|] == sent;
    }
  }

  lemma {:induction false} SameFields(before: Bits, a: Fields, b: Fields)
    requires FieldsIn(before, a) && FieldsIn(before, b)
    ensures a == b
  {
    hide LengthsIn;
  }

  /** A header that is sent is the one that is read: the result is its lengths, whatever
      runs they were sent as, and the reader stops right behind them. */
  lemma {:induction false} HeaderIsRead(before: Bits, r: HeaderResult, h: Fields, runs: seq<Run>, rest: Bits, junk: seq<nat>, astray: bool,
                                        sent: Fields, sentRuns: seq<Run>, tail: Bits)
    requires HeaderReport(before, r, h, runs, rest, junk, astray)
    requires sent.Ok() && LevelOk(sent.cl, junk) && RunsOk(sent.cl, sentRuns) && |Expand(sentRuns)| == sent.nl + sent.nd
    requires before == sent.Encode() + (EncodeRuns(sent.cl, sentRuns) + tail) && |tail| >= 14
    ensures !astray && r == GotLengths(Expand(sentRuns)[..sent.nl], Expand(sentRuns)[sent.nl..]) && h == sent && rest == tail
  {
    hide LevelOk, Run.Ok, Run.Encode, Run.Lengths, EncodeRuns, Expand, LengthsIn, LengthBits, PrefixCode, Lsb, ToBits, NoRun, Lone, Complete;
    var bits := EncodeRuns(sent.cl, sentRuns) + tail;
    FieldsRoundTrip(sent, bits);
    assert before[14 + 3 * sent.nb..] == bits;
    LevelIsPrefixCode(sent.cl, junk);
    if FieldsIn(before, h) {
      SameFields(before, h, sent);
    }
    if ReadTo(before, h, runs, rest) {
      RunsAreRead(sent.cl, runs, rest, sentRuns, tail);
      if astray { RunStands(sent.cl, runs, rest, sentRuns, tail); }
    }
  }

  lemma LevelIsPrefixCode(cl: seq<nat>, junk: seq<nat>)
    requires CodeLengthsOk(cl) && LevelOk(cl, junk)
    ensures PrefixCode(cl)
  {
    hide Counts, Longest, Padded, PrefixCode;
    ShortCode(cl);
    if Complete(cl) {
      CompleteIsFull(cl);
    } else {
      LoneFacts(cl);
      SymbolCodes(cl);
    }
  }

  /** As long as lengths are wanted, a run that was sent stands there. */
  lemma {:induction false} RunStands(cl: seq<nat>, runs: seq<Run>, rest: Bits, sent: seq<Run>, tail: Bits)
    requires PrefixCode(cl) && RunsOk(cl, runs) && RunsOk(cl, sent) && |Expand(runs)| < |Expand(sent)|
    requires EncodeRuns(cl, runs) + rest == EncodeRuns(cl, sent) + tail
    ensures !NoRun(cl, rest)
  {
    hide PrefixCode, Run.Encode, Run.Ok, Expand, NoRun;
    if |runs| < |sent| {
      OneRunString(cl, runs, rest, sent, tail);
      var more := sent[|runs|..];
      assert more[0].Encode(cl) <= rest;
      RunStarts(cl, more[0], rest);
    } else {
      OneRunString(cl, sent, tail, runs, rest);
      ExpandGrows(runs, |sent|);
      assert false;
    }
  }

  lemma RunStarts(cl: seq<nat>, run: Run, rest: Bits)
    requires run.Ok(cl) && run.Encode(cl) <= rest
    ensures !NoRun(cl, rest)
  {
    hide Word;
    assert Word(cl, run.Sym()) <= run.Encode(cl);
  }

  /** The other direction: whatever is accepted, unless it went astray, is such a header. */
  lemma HeaderIsValid(before: Bits, r: HeaderResult, h: Fields, runs: seq<Run>, rest: Bits, junk: seq<nat>)
    requires HeaderReport(before, r, h, runs, rest, junk, false) && r.GotLengths?
    ensures h.Ok() && LevelOk(h.cl, junk) && RunsOk(h.cl, runs) && before == h.Encode() + (EncodeRuns(h.cl, runs) + rest)
  {
    hide LevelOk, RunsOk, EncodeRuns, FieldsIn, Expand;
    FieldsAreSent(before, h);
  }

  // ---------- The whole block ----------

  datatype DynamicResult = NoHeader(header: HeaderResult) | Block(block: BlockResult)

  /** The code lengths of a header that was read. */
  ghost function Codes(h: Fields, runs: seq<Run>): (codes: (seq<nat>, seq<nat>)) {
    var all := Expand(runs);
    if h.nl <= |all| then (all[..h.nl], all[h.nl..]) else (all, [])
  }

  /** What a result means: the header, then the block in the codes it gives.  The junks are
      what the symbol arrays of the builds held. */
  ghost predicate DynamicReport(before: Bits, room: nat, r: DynamicResult, h: Fields, runs: seq<Run>, data: Bits,
                                toks: seq<Token>, rest: Bits, left: Bits, junk0: seq<nat>, junk1: seq<nat>, junk2: seq<nat>,
                                lost: bool, astray: bool)
  {
    if r.NoHeader? then !r.header.GotLengths? && HeaderReport(before, r.header, h, runs, data, junk0, lost)
    else if lost then RunLost(before, h, runs, data)
    else
      var (lit, dst) := Codes(h, runs);
      && HeaderReport(before, GotLengths(lit, dst), h, runs, data, junk0, false)
      && (r == Block(BadLengths) <==> !Usable(lit, 257, LitExtras(), junk1) || !Usable(dst, 0, DistExtras(), junk2))
      && (r.block.Decoded? ==> PrefixCode(lit) && PrefixCode(dst) && Report(lit, dst, data, room, toks, r.block.outcome, rest, left, astray))
      && (r.block.Decoded? && Acceptable(lit) && Acceptable(dst) ==> !astray)
  }

  /** inflate_dynamic.  The junks are what the symbol arrays of the three builds held. */
  method InflateDynamic(inf: Inflater, lastInChunk: bool, junk0: seq<nat>, junk1: seq<nat>, junk2: seq<nat>)
    returns (r: DynamicResult, ghost h: Fields, ghost runs: seq<Run>, ghost data: Bits,
             ghost toks: seq<Token>, ghost rest: Bits, ghost left: Bits, ghost lost: bool, ghost astray: bool)
    requires inf.Valid() && |junk0| == CODES
    requires JunkOk(junk1, N_MAX, 257, LitExtras()) && JunkOk(junk2, N_MAX, 0, DistExtras())
    modifies inf, inf.reader, inf.litterBuf, inf.distBuf
    ensures DynamicReport(old(inf.reader.Unread()), LIT_BUFSIZE - old(inf.lit), r, h, runs, data, toks, rest, left, junk0, junk1, junk2, lost, astray)
    ensures r.Block? && r.block.Decoded? && !lost ==>
              inf.Kept(old(inf.litterBuf[..inf.lit]), old(inf.distBuf[..inf.lit]), Codes(h, runs).0, Codes(h, runs).1, toks)
    ensures r == Block(Decoded(EndOfBlock)) && !lost && !astray ==>
              inf.Valid() && inf.lit == old(inf.lit) + |toks| && inf.reader.Unread() == (if lastInChunk then [] else left)
  {
    hide Acceptable, Usable, Complete, MaxLen, Lone, InExtras, Report, LitsOf, DistsOf, Reader.Valid, Reader.Unread, Expand, FieldsIn, RunsOk,
      EncodeRuns, PrefixCode, LitExtras, DistExtras, LevelOk, NoRun, Inflater.Kept;
    toks, rest, left, astray := [], [], [], false;
    var hr;
    hr, h, runs, data, lost := ReadHeader(inf.reader, junk0);
    if !hr.GotLengths? {
      return NoHeader(hr), h, runs, data, toks, rest, left, lost, astray;
    }
    if !lost { CodesAre(h, runs, hr.lit, hr.dst); }
    FrontOfJunk(junk1, |hr.lit|, 257, LitExtras());
    FrontOfJunk(junk2, |hr.dst|, 0, DistExtras());
    UsableByFront(hr.lit, 257, LitExtras(), junk1);
    UsableByFront(hr.dst, 0, DistExtras(), junk2);
    var b;
    b, toks, rest, left, astray := DynamicBlock(inf, hr.lit, hr.dst, lastInChunk, junk1[..|hr.lit|], junk2[..|hr.dst|]);
    r := Block(b);
  }

  lemma CodesAre(h: Fields, runs: seq<Run>, lit: seq<nat>, dst: seq<nat>)
    requires Expand(runs) == lit + dst && |lit| == h.nl
    ensures Codes(h, runs) == (lit, dst)
  {
    hide Expand;
  }

  lemma UsableByFront(lens: seq<nat>, simple: nat, extras: Extras, junk: seq<nat>)
    requires |lens| <= |junk|
    ensures Usable(lens, simple, extras, junk[..|lens|]) <==> Usable(lens, simple, extras, junk)
  {
    hide Acceptable;
  }

  lemma FrontOfJunk(junk: seq<nat>, n: nat, simple: nat, extras: Extras)
    requires JunkOk(junk, N_MAX, simple, extras) && n <= N_MAX
    ensures JunkOk(junk[..n], n, simple, extras)
  {
    var front := junk[..n];
    forall i | 0 <= i < n
      ensures front[i] == junk[i]
    {
    }
  }

  /** The round trip for whole blocks: a valid header, the tokens in the codes that it
      describes, the end of the block and at least BMAX + 1 bits are decoded to exactly
      those tokens, whatever the arrays held, if and only if the builds accept the codes. */
  lemma {:induction false} DynamicIsDecoded(before: Bits, room: nat, r: DynamicResult, h: Fields, runs: seq<Run>, data: Bits,
                                            toks: seq<Token>, rest: Bits, left: Bits, junk0: seq<nat>, junk1: seq<nat>, junk2: seq<nat>,
                                            lost: bool, astray: bool,
                                            sent: Fields, sentRuns: seq<Run>, lit: seq<nat>, dst: seq<nat>, block: seq<Token>, tail: Bits)
    requires DynamicReport(before, room, r, h, runs, data, toks, rest, left, junk0, junk1, junk2, lost, astray)
    requires sent.Ok() && LevelOk(sent.cl, junk0) && RunsOk(sent.cl, sentRuns) && Expand(sentRuns) == lit + dst
    requires |lit| == sent.nl && |dst| == sent.nd
    requires TokensOk(lit, dst, block) && Coded(lit, END_OF_BLOCK) && FewNear(block) && |block| < room && |tail| > BMAX
    requires before == sent.Encode() + (EncodeRuns(sent.cl, sentRuns) + (EncodeAll(lit, dst, block) + (Word(lit, END_OF_BLOCK) + tail)))
    ensures var accepted := Usable(lit, 257, LitExtras(), junk1) && Usable(dst, 0, DistExtras(), junk2);
            if accepted then r == Block(Decoded(EndOfBlock)) && toks == block && left == tail && !lost && !astray else r == Block(BadLengths)
  {
    hide Acceptable, Usable, Complete, Lone, Report, Expand, FieldsIn, RunsOk, EncodeRuns, PrefixCode, TokenOk, FewNear, EncodeAll, Word, Fields.Encode,
      HeaderReport, LevelOk, RunLost;
    var bits := EncodeAll(lit, dst, block) + (Word(lit, END_OF_BLOCK) + tail);
    assert Expand(sentRuns)[..sent.nl] == lit && Expand(sentRuns)[sent.nl..] == dst;
    var (lit', dst') := Codes(h, runs);
    var hr := if r.NoHeader? then r.header else GotLengths(lit', dst');
    if lost && r.Block? { LostReport(before, hr, h, runs, data, junk0, sent, sentRuns, bits); }
    HeaderIsRead(before, hr, h, runs, data, junk0, lost, sent, sentRuns, bits);
    if r.block.Decoded? {
      BlockIsDecoded(lit, dst, data, room, toks, r.block.outcome, rest, left, astray, block, tail);
    }
  }

  /** A reading that went astray is reported so, whatever came out of it. */
  lemma LostReport(before: Bits, r: HeaderResult, h: Fields, runs: seq<Run>, rest: Bits, junk: seq<nat>,
                   sent: Fields, sentRuns: seq<Run>, tail: Bits)
    requires RunLost(before, h, runs, rest) && sent.Ok() && LevelOk(sent.cl, junk)
    requires RunsOk(sent.cl, sentRuns) && before == sent.Encode() + (EncodeRuns(sent.cl, sentRuns) + tail)
    ensures HeaderReport(before, r, h, runs, rest, junk, true)
  {
    hide LevelOk, EncodeRuns, RunsOk, Fields.Encode, LengthsIn, Lone, Complete, Expand;
    FieldsRoundTrip(sent, EncodeRuns(sent.cl, sentRuns) + tail);
    SameFields(before, h, sent);
  }
}
