/** Compressed blocks from their code lengths on: for which lengths the tables are usable,
    that they then decode exactly the code, and the blocks with fixed and dynamic codes. */
module Blocks {
  import opened Bits
  import opened Canonical
  import opened HuffmanTree
  import opened HuffmanBuild
  import opened HuffmanMain
  import opened BitReader
  import opened Inflate
  import opened InflateCodes

  /** How many symbols have a code. */
  function Used(lens: seq<nat>): nat { Offset(Counts(lens), BMAX + 1) }

  /** The k-th symbol of a length exists. */
  lemma {:induction false} SymbolOfRank(lens: seq<nat>, k: nat, r: nat) returns (sym: nat)
    requires r < Count(lens, k)
    ensures sym < |lens| && lens[sym] == k && Rank(lens, sym) == r
  {
    var front := lens[..|lens| - 1];
    if r < Count(front, k) {
      sym := SymbolOfRank(front, k, r);
      assert front[..sym] == lens[..sym];
    } else {
      sym := |lens| - 1;
    }
  }

  /** Every code word of the lengths belongs to a symbol. */
  lemma {:induction false} SymbolOfSlot(lens: seq<nat>, s: Slot) returns (sym: nat)
    requires 1 <= s.len <= BMAX && First(Counts(lens), s.len) <= s.code < End(Counts(lens), s.len)
    ensures Coded(lens, sym) && SlotOf(lens, sym) == s
  {
    sym := SymbolOfRank(lens, s.len, s.code - First(Counts(lens), s.len));
  }

  lemma {:induction false} UsedIsTop(c: seq<nat>, g: nat, n: nat)
    requires 1 <= g < n <= |c| && forall j :: g < j < |c| ==> c[j] == 0
    ensures Offset(c, n) == Offset(c, g) + c[g]
  {
    if n > g + 1 { UsedIsTop(c, g, n - 1); }
  }

  /** A code word of the padded code is a symbol's, or comes behind all symbols' words. */
  lemma {:induction false} SymbolOrPadding(lens: seq<nat>, s: Slot)
    requires LengthsOk(lens) && MaxLen(lens) > 0 && IsSlot(Padded(lens), MaxLen(lens), s)
    ensures s.code < End(Counts(lens), s.len) ==> exists sym: nat :: Coded(lens, sym) && SlotOf(lens, sym) == s
    ensures s.code >= End(Counts(lens), s.len) ==> s.len == MaxLen(lens) && Place(Padded(lens), s) >= Used(lens) && !Complete(lens)
  {
    hide Counts;
    PaddedCodes(lens, s.len);
    if s.code < End(Counts(lens), s.len) {
      var sym := SymbolOfSlot(lens, s);
    } else {
      UsedIsTop(Counts(lens), MaxLen(lens), BMAX + 1);
    }
  }

  /** Usable results: every code word is a symbol's, or all symbols are used, so that the
      words left over can be told from symbols. */
  ghost predicate WellUsed(lens: seq<nat>) {
    Complete(lens) || Used(lens) == |lens|
  }

  lemma {:induction false} SymbolCodes(lens: seq<nat>)
    requires LengthsOk(lens) && MaxLen(lens) > 0 && Full(Padded(lens), MaxLen(lens))
    ensures PrefixCode(lens)
  {
    forall a: nat, b: nat | Coded(lens, a) && Coded(lens, b) && Word(lens, a) <= Word(lens, b)
      ensures a == b
    {
      hide Counts, Padded, Longest, Full;
      SymbolIsSlot(lens, a);
      SymbolIsSlot(lens, b);
      PrefixFree(Padded(lens), MaxLen(lens), SlotOf(lens, a), SlotOf(lens, b));
      SymbolSlots(lens, a, b);
    }
  }

  /** A buffer that starts with no symbol's code starts with one of the words left over. */
  lemma {:induction false} LeftOver(lens: seq<nat>, buffer: nat) returns (s: Slot)
    requires LengthsOk(lens) && MaxLen(lens) > 0 && Full(Padded(lens), MaxLen(lens)) && NoWord(lens, buffer)
    ensures IsSlot(Padded(lens), MaxLen(lens), s) && ToBits(buffer, s.len) == s.Word()
    ensures s.code >= End(Counts(lens), s.len)
  {
    hide Padded, Counts, Longest, Full, ToBits;
    var g := MaxLen(lens);
    var y := ToBits(buffer, g);
    s := Tiling(Padded(lens), g, y);
    ToBitsSplit(buffer, s.len, g - s.len);
    assert y[..s.len] == ToBits(buffer, s.len);
    forall sym: nat | Coded(lens, sym)
      ensures SlotOf(lens, sym) != s
    {
      assert !Starts(lens, sym, buffer);
    }
    SymbolOrPadding(lens, s);
  }

  /** The tables of a build decode the code of the lengths and nothing else. */
  lemma {:induction false} BuiltIsDecoder(lens: seq<nat>, simple: nat, extras: Extras, m: nat, tables: Tables, meta: seq<Meta>, order: seq<nat>)
    requires Built(lens, simple, extras, m, tables, meta, order) && !Wide(lens, m) && WellUsed(lens) && |order| == |lens|
    ensures Decoder(tables, LookupBits(lens, m), lens, simple, extras)
  {
    SymbolCodes(lens);
    hide Counts, Padded, Longest, Lookup, SymbolResult, ToBits, Used, Complete, Wide, Sorted, Full, Finished, PrefixCode, LookupBits;
    var ctx := CodeContext(lens, m, Coding(order, simple, extras));
    forall sym: nat, buffer: nat | Starts(lens, sym, buffer)
      ensures Lookup(tables, 0, LookupBits(lens, m), buffer) == SymbolResult(sym, simple, extras, lens[sym])
    {
      DecodesSymbol(lens, simple, extras, m, tables, meta, order, sym, buffer);
    }
    forall buffer: nat | NoWord(lens, buffer)
      ensures Invalid(Lookup(tables, 0, LookupBits(lens, m), buffer))
    {
      var s := LeftOver(lens, buffer);
      SymbolOrPadding(lens, s);
      NoneOversize(lens, simple, extras, m, tables, meta, order);
      LookupWord(ctx, tables, meta, s, buffer);
    }
  }

  /** Otherwise the first word left over decodes to whatever the symbol array held: the
      entry made for it is that of order[Used(lens)], which no code length put there. */
  lemma {:induction false} LeftOverDecodesJunk(lens: seq<nat>, simple: nat, extras: Extras, m: nat, tables: Tables, meta: seq<Meta>, order: seq<nat>,
                                               buffer: nat)
    requires Built(lens, simple, extras, m, tables, meta, order) && !Wide(lens, m) && |order| == |lens|
    requires !Complete(lens) && Used(lens) < |lens|
    requires var g := MaxLen(lens); ToBits(buffer, g) == CodeBits(End(Counts(lens), g), g)
    ensures NoWord(lens, buffer)
    ensures Lookup(tables, 0, LookupBits(lens, m), buffer) == SymbolResult(order[Used(lens)], simple, extras, MaxLen(lens))
  {
    hide Lookup, ToBits, Wide, Sorted, Finished, LookupBits, Longest;
    var g := MaxLen(lens);
    var ctx := CodeContext(lens, m, Coding(order, simple, extras));
    var s := Slot(g, End(Counts(lens), g));
    PaddedCodes(lens, g);
    UsedIsTop(Counts(lens), g, BMAX + 1);
    assert IsSlot(ctx.c, g, s) by { PaddedRoom(lens); }
    hide Counts, Padded, Complete, Full, First, Offset;
    forall sym: nat
      ensures !Starts(lens, sym, buffer)
    {
      if Starts(lens, sym, buffer) {
        SymbolIsSlot(lens, sym);
        SymbolSlots(lens, sym, sym);
        var t := SlotOf(lens, sym);
        ToBitsSplit(buffer, t.len, g - t.len);
        assert t.Word() <= s.Word();
        PrefixFree(ctx.c, g, t, s);
      }
    }
    NoneOversize(lens, simple, extras, m, tables, meta, order);
    LookupWord(ctx, tables, meta, s, buffer);
  }

  /** Whatever the array held, the tables decode the symbols' words to the symbols, and other
      words to some symbol or to none. */
  lemma {:induction false} BuiltIsLoose(lens: seq<nat>, simple: nat, extras: Extras, m: nat, tables: Tables, meta: seq<Meta>, order: seq<nat>)
    requires Built(lens, simple, extras, m, tables, meta, order) && !Wide(lens, m) && |order| == |lens|
    ensures LooseDecoder(tables, LookupBits(lens, m), lens, simple, extras)
  {
    SymbolCodes(lens);
    hide Counts, Padded, Longest, Lookup, SymbolResult, ToBits, Used, Complete, Wide, Sorted, Full, Finished, PrefixCode, LookupBits, AnySymbol;
    var ctx := CodeContext(lens, m, Coding(order, simple, extras));
    forall sym: nat, buffer: nat | Starts(lens, sym, buffer)
      ensures Lookup(tables, 0, LookupBits(lens, m), buffer) == SymbolResult(sym, simple, extras, lens[sym])
    {
      DecodesSymbol(lens, simple, extras, m, tables, meta, order, sym, buffer);
    }
    forall buffer: nat | NoWord(lens, buffer)
      ensures AnySymbol(Lookup(tables, 0, LookupBits(lens, m), buffer), simple, extras)
    {
      var s := LeftOver(lens, buffer);
      NoneOversize(lens, simple, extras, m, tables, meta, order);
      LookupWord(ctx, tables, meta, s, buffer);
      EntryIsAnySymbol(ctx, s);
    }
  }

  lemma EntryIsAnySymbol(ctx: Context, s: Slot)
    requires ContextOk(ctx) && 1 <= s.len < |ctx.c| && Codable(ctx.coding, Place(ctx.c, s))
    ensures var r := EntryOf(ctx, s, 0); r.Huft? && AnySymbol(Found(r.e, r.v, s.len), ctx.coding.simple, ctx.coding.extras)
  {
    hide Full;
    var coding, place := ctx.coding, Place(ctx.c, s);
    var r := EntryOf(ctx, s, 0);
    if 0 <= place < |coding.order| {
      assert Found(r.e, r.v, s.len) == SymbolResult(coding.order[place], coding.simple, coding.extras, s.len);
    }
  }

  lemma PaddedRoom(lens: seq<nat>)
    requires MaxLen(lens) > 0 && !Complete(lens) && Full(Padded(lens), MaxLen(lens))
    ensures End(Counts(lens), MaxLen(lens)) < First(Counts(lens), MaxLen(lens)) + Padded(lens)[MaxLen(lens)]
  {
    PaddedCodes(lens, MaxLen(lens));
  }

  /** One code of one bit among two symbols. */
  function OneOfTwo(): (lens: seq<nat>)
    ensures |lens| == 2
  {
    [1, 0]
  }

  lemma OneOfTwoCounts()
    ensures var c := Counts(OneOfTwo()); c[1] == 1 && forall j :: 1 < j <= BMAX ==> c[j] == 0
  {
    var lens, one := OneOfTwo(), [1];
    assert lens[..1] == one && one[..0] == [];
    forall k: nat
      ensures Count(lens, k) == if k <= 1 then 1 else 0
    {
      assert Count(one, k) == if k == 1 then 1 else 0;
    }
  }

  lemma OneOfTwoCode()
    ensures LengthsOk(OneOfTwo()) && MaxLen(OneOfTwo()) == 1 && LookupBits(OneOfTwo(), 7) == 1
    ensures End(Counts(OneOfTwo()), 1) == 1 && Used(OneOfTwo()) == 1 && !Complete(OneOfTwo()) && !Oversubscribed(OneOfTwo())
  {
    var c := Counts(OneOfTwo());
    OneOfTwoCounts();
    FirstPowers();
    assert LengthsOk(OneOfTwo());
    hide Counts, OneOfTwo, Longest, Shortest, LengthsOk, Pow2;
    LongestIs(c, 1);
    ShortestIs(c, 1);
    UsedIsTop(c, 1, BMAX + 1);
    OversubscribedEarly(OneOfTwo());
  }

  /** So the junk can be met: the bit 1, which is no code here, decodes to the symbol 1 that
      the array happened to hold. */
  method DecodeUnusedCode() returns (code: int, tables: Tables, bits: nat)
    ensures code == 0 && NoWord(OneOfTwo(), 1) && Lookup(tables, 0, bits, 1) == Found(16, 1, 1)
  {
    hide Counts, Longest, Shortest, Padded, Full, Finished, Sorted, Lookup, Pow2, OneOfTwo, Complete, Oversubscribed, Used, Wide, NoWord, ToBits;
    var lens := OneOfTwo();
    ghost var meta, order;
    OneOfTwoCode();
    code, tables, bits, meta, order := HuftBuild(lens, 2, NoExtras, 7, [0, 1]);
    assert AllCodable(CodeContext(lens, 7, Coding(order, 2, NoExtras)));
    ShortNotWide(lens, 7);
    OneBit();
    JunkKept(lens, order);
    LeftOverDecodesJunk(lens, 2, NoExtras, 7, tables, meta, order, 1);
  }

  lemma OneBit()
    ensures ToBits(1, 1) == CodeBits(1, 1)
  {
    assert ToBits(1, 1) == [true] && CodeBits(1, 1) == [true];
  }

  lemma JunkKept(lens: seq<nat>, order: seq<nat>)
    requires |order| == 2 && forall n :: Offset(Counts(lens), BMAX + 1) <= n < |order| ==> order[n] == [0, 1][n]
    requires Used(lens) == 1
    ensures order[Used(lens)] == 1
  {
  }

  // ---------- Which lengths the blocks accept ----------

  /** Complete lengths are not oversubscribed. */
  lemma {:induction false} CompleteFits(lens: seq<nat>)
    requires Complete(lens)
    ensures !Oversubscribed(lens)
  {
    hide Counts, Longest;
    OversubscribedEarly(lens);
    if Oversubscribed(lens) {
      var k :| 1 <= k <= MaxLen(lens) && End(Counts(lens), k) > Pow2(k);
      OverrunGrows(Counts(lens), k, MaxLen(lens));
    }
  }

  lemma {:induction false} OverrunGrows(c: seq<nat>, a: nat, b: nat)
    requires 1 <= a <= b < |c| && End(c, a) > Pow2(a)
    ensures End(c, b) > Pow2(b)
    decreases b
  {
    if a < b { OverrunGrows(c, a, b - 1); }
  }

  lemma ShortNotWide(lens: seq<nat>, m: nat)
    requires MaxLen(lens) <= 2 * LookupBits(lens, m)
    ensures !Wide(lens, m)
  {
    hide Counts, Padded, Longest, Shortest;
    if Wide(lens, m) {
      WideIsDeep(Padded(lens), MaxLen(lens), LookupBits(lens, m));
    }
  }

  /** No table of a code of at most 2^m symbols looked up m bits at a time is too wide. */
  lemma {:induction false} NotWide(lens: seq<nat>, m: nat)
    requires LengthsOk(lens) && Complete(lens) && |lens| <= Pow2(m)
    ensures !Wide(lens, m)
  {
    hide Counts, Padded, Longest, Shortest;
    var l := LookupBits(lens, m);
    if l >= m {
      Pow2Monotone(m, l);
      FewSymbolsNotWide(lens, m);
    } else {
      ShortNotWide(lens, m);
    }
  }

  ghost predicate HasEntry(coding: Coding, sym: nat) {
    sym < coding.simple
    || (coding.extras.Extras? && sym - coding.simple <= 30 && sym - coding.simple < |coding.extras.base| == |coding.extras.bits|)
  }

  /** All entries can be made, whatever the array held, when only symbols are looked at. */
  lemma {:induction false} WellUsedCodable(lens: seq<nat>, m: nat, coding: Coding)
    requires LengthsOk(lens) && MaxLen(lens) > 0 && WellUsed(lens) && Sorted(lens, coding.order)
    requires forall sym: nat :: sym < |lens| ==> HasEntry(coding, sym)
    ensures AllCodable(CodeContext(lens, m, coding))
  {
    hide Counts, Padded, Longest, Shortest, Used, Complete;
    var ctx := CodeContext(lens, m, coding);
    forall s | IsSlot(ctx.c, ctx.g, s)
      ensures Codable(coding, Place(ctx.c, s))
    {
      SymbolOrPadding(lens, s);
      if s.code < End(Counts(lens), s.len) {
        var sym: nat :| Coded(lens, sym) && SlotOf(lens, sym) == s;
        SymbolIsSlot(lens, sym);
        assert Listed(lens, coding.order, sym);
        assert HasEntry(coding, sym);
      }
    }
  }

  // ---------- The blocks ----------

  /** A single symbol with a code of one bit, in an alphabet of several. */
  ghost predicate Lone(lens: seq<nat>) {
    MaxLen(lens) == 1 && Counts(lens)[1] == 1 && |lens| > 1
  }

  /** What a block with dynamic codes accepts: the lengths of Acceptable, and a single one-bit
      code among several symbols (which section 3.2.7 of RFC 1951 allows for distances) just
      if an entry can be made of what the symbol array held next. */
  ghost predicate Usable(lens: seq<nat>, simple: nat, extras: Extras, junk: seq<nat>) {
    Acceptable(lens) || (Lone(lens) && |junk| > 1 && HasEntry(Coding(junk, simple, extras), junk[1]))
  }

  /** A complete code, or one symbol of one bit in an alphabet of its own. */
  ghost predicate Acceptable(lens: seq<nat>) {
    Complete(lens) || (MaxLen(lens) == 1 && |lens| == 1)
  }

  lemma AcceptableIsWellUsed(lens: seq<nat>)
    requires LengthsOk(lens) && Acceptable(lens)
    ensures MaxLen(lens) > 0 && WellUsed(lens) && !Oversubscribed(lens)
    ensures Complete(lens) || MaxLen(lens) == 1
  {
    if Complete(lens) {
      CompleteFits(lens);
    } else {
      assert lens == [lens[0]];
      OneSymbol(lens[0]);
      OversubscribedEarly(lens);
    }
  }

  lemma OneSymbol(n: nat)
    requires n <= BMAX && MaxLen([n]) == 1
    ensures n == 1 && Used([n]) == 1 && End(Counts([n]), 1) == 1
  {
    var lens := [n];
    assert lens[..0] == [];
    assert forall k: nat :: Count(lens, k) == if n == k then 1 else 0;
    assert Counts(lens)[1] >= 1;
    UsedIsTop(Counts(lens), 1, BMAX + 1);
  }

  lemma FinishedHasTables(ctx: Context, tables: Tables, meta: seq<Meta>)
    requires Finished(ctx, tables, meta) && meta != []
    ensures tables != []
  {
  }

  /** The post-condition of a build, as far as the blocks use it. */
  ghost predicate BuildResult(lens: seq<nat>, coding: Coding, m: nat, code: int, tables: Tables, bits: nat, meta: seq<Meta>) {
    && (MaxLen(lens) == 0 ==> code == 0 && tables == [])
    && (MaxLen(lens) > 0 ==>
          |coding.order| == |lens| && Sorted(lens, coding.order)
          && var ctx := CodeContext(lens, m, coding);
             (code == 2 <==> Oversubscribed(lens) || !AllCodable(ctx))
             && (code != 2 ==> code == (if !Complete(lens) && MaxLen(lens) != 1 then 1 else 0)
                               && bits == ctx.l && ContextOk(ctx) && AllCodable(ctx) && meta != [] && Finished(ctx, tables, meta)))
  }

  ghost predicate AllHaveEntries(coding: Coding, n: nat) {
    forall sym: nat :: sym < n ==> HasEntry(coding, sym)
  }

  /** A lone code has one word, 0; the other belongs to the place behind it. */
  lemma {:induction false} LoneFacts(lens: seq<nat>)
    requires LengthsOk(lens) && Lone(lens)
    ensures Used(lens) == 1 && !Oversubscribed(lens) && !Complete(lens) && Full(Padded(lens), 1) && Padded(lens)[1] == 2
    ensures End(Counts(lens), 1) == 1
  {
    OversubscribedEarly(lens);
    UsedIsTop(Counts(lens), 1, BMAX + 1);
    PaddedIsFull(lens);
  }

  /** The build gives up exactly if no entry can be made for that place. */
  lemma {:induction false} LoneCodable(lens: seq<nat>, m: nat, coding: Coding)
    requires LengthsOk(lens) && Lone(lens) && Sorted(lens, coding.order) && AllHaveEntries(coding, |lens|)
    ensures AllCodable(CodeContext(lens, m, coding)) <==> HasEntry(coding, coding.order[1])
  {
    var ctx := CodeContext(lens, m, coding);
    LoneFacts(lens);
    hide Counts, Padded, Longest, Shortest, Used, Complete, Full;
    assert Codable(coding, 1) <==> HasEntry(coding, coding.order[1]);
    assert IsSlot(ctx.c, ctx.g, Slot(1, 1)) && Place(ctx.c, Slot(1, 1)) == 1;
    if HasEntry(coding, coding.order[1]) {
      forall s | IsSlot(ctx.c, ctx.g, s)
        ensures Codable(coding, Place(ctx.c, s))
      {
        assert Place(ctx.c, s) == s.code < 2;
        if s.code == 0 {
          SymbolOrPadding(lens, s);
          var sym: nat :| Coded(lens, sym) && SlotOf(lens, sym) == s;
          SymbolIsSlot(lens, sym);
          assert Listed(lens, coding.order, sym);
          assert HasEntry(coding, sym);
        }
      }
    }
  }

  /** The order behind the symbols is what the array held. */
  ghost predicate JunkBehind(lens: seq<nat>, order: seq<nat>, junk: seq<nat>) {
    |order| == |junk| == |lens| && forall n :: Used(lens) <= n < |order| ==> order[n] == junk[n]
  }

  /** A build succeeds with tables exactly for usable lengths, and then decodes them. */
  lemma {:induction false} BuildOfUsable(lens: seq<nat>, coding: Coding, m: nat, code: int, tables: Tables, bits: nat, meta: seq<Meta>, junk: seq<nat>)
    requires LengthsOk(lens) && BuildResult(lens, coding, m, code, tables, bits, meta) && (MaxLen(lens) > 0 ==> JunkBehind(lens, coding.order, junk))
    requires AllHaveEntries(coding, |lens|) && |lens| <= Pow2(m)
    ensures code == 0 && tables != [] <==> Usable(lens, coding.simple, coding.extras, junk)
    ensures Usable(lens, coding.simple, coding.extras, junk) ==> LooseDecoder(tables, bits, lens, coding.simple, coding.extras)
    ensures Acceptable(lens) ==> Decoder(tables, bits, lens, coding.simple, coding.extras)
  {
    hide Counts, Padded, Longest, Shortest, Used, Complete, AllCodable, Sorted, Oversubscribed, Finished, Wide, Full, Decoder, LooseDecoder, WellUsed,
      HasEntry, Acceptable;
    if Acceptable(lens) {
      BuildOfAcceptable(lens, coding, m, code, tables, bits, meta);
      StrictIsLoose(tables, bits, lens, coding.simple, coding.extras);
    } else if Lone(lens) {
      BuildOfLone(lens, coding, m, code, tables, bits, meta, junk);
    } else {
      NotUsable(lens, coding, m, code, tables, bits, meta);
    }
  }

  lemma {:induction false} BuildOfAcceptable(lens: seq<nat>, coding: Coding, m: nat, code: int, tables: Tables, bits: nat, meta: seq<Meta>)
    requires LengthsOk(lens) && BuildResult(lens, coding, m, code, tables, bits, meta)
    requires AllHaveEntries(coding, |lens|) && |lens| <= Pow2(m) && Acceptable(lens)
    ensures code == 0 && tables != [] && Decoder(tables, bits, lens, coding.simple, coding.extras)
  {
    hide Counts, Padded, Longest, Shortest, Used, Complete, AllCodable, Sorted, Oversubscribed, Finished, Wide, Full, Decoder, WellUsed, HasEntry;
    AcceptableIsWellUsed(lens);
    WellUsedCodable(lens, m, coding);
    FinishedHasTables(CodeContext(lens, m, coding), tables, meta);
    if Complete(lens) {
      NotWide(lens, m);
    } else {
      ShortNotWide(lens, m);
    }
    BuiltIsDecoder(lens, coding.simple, coding.extras, m, tables, meta, coding.order);
  }

  lemma {:induction false} BuildOfLone(lens: seq<nat>, coding: Coding, m: nat, code: int, tables: Tables, bits: nat, meta: seq<Meta>, junk: seq<nat>)
    requires LengthsOk(lens) && BuildResult(lens, coding, m, code, tables, bits, meta) && JunkBehind(lens, coding.order, junk)
    requires AllHaveEntries(coding, |lens|) && Lone(lens)
    ensures code == 2 <==> !HasEntry(coding, junk[1])
    ensures code != 2 ==> code == 0 && tables != [] && LooseDecoder(tables, bits, lens, coding.simple, coding.extras)
    ensures |junk| > 1 && (HasEntry(coding, junk[1]) <==> HasEntry(Coding(junk, coding.simple, coding.extras), junk[1]))
  {
    LoneFacts(lens);
    assert MaxLen(lens) == 1 && |lens| > 1;
    hide Counts, Padded, Longest, Shortest, Used, Complete, AllCodable, Sorted, Oversubscribed, Finished, Wide, Full, LooseDecoder;
    LoneCodable(lens, m, coding);
    if code != 2 {
      FinishedHasTables(CodeContext(lens, m, coding), tables, meta);
      ShortNotWide(lens, m);
      BuiltIsLoose(lens, coding.simple, coding.extras, m, tables, meta, coding.order);
    }
  }

  lemma {:induction false} NotUsable(lens: seq<nat>, coding: Coding, m: nat, code: int, tables: Tables, bits: nat, meta: seq<Meta>)
    requires LengthsOk(lens) && BuildResult(lens, coding, m, code, tables, bits, meta) && !Acceptable(lens) && !Lone(lens)
    ensures code != 0 || tables == []
  {
    hide Count, Padded, Shortest, Used, AllCodable, Sorted, Finished, Wide, Full;
    if MaxLen(lens) == 1 {
      assert Counts(lens)[1] > 2;
      assert End(Counts(lens), 1) > Pow2(1);
    }
  }

  lemma AllSymbolsHaveEntries(order: seq<nat>)
    ensures AllHaveEntries(Coding(order, 257, LitExtras()), 288)
    ensures AllHaveEntries(Coding(order, 0, DistExtras()), 30)
  {
  }

  /** What the symbol array may hold beforehand: values that index the base tables. */
  ghost predicate JunkOk(junk: seq<nat>, n: nat, simple: nat, extras: Extras) {
    |junk| == n && InExtras(Coding(junk, simple, extras))
  }

  lemma SymbolsInExtras(n: nat, m: nat)
    requires n <= 288 && m <= 30
    ensures InExtras(Coding(seq(n, i => i), 257, LitExtras())) && InExtras(Coding(seq(m, i => i), 0, DistExtras()))
    ensures PlainExtras(LitExtras()) && PlainExtras(DistExtras())
  {
  }

  datatype BlockResult = BadLengths | Decoded(outcome: Outcome)

  /** The tail of inflate_dynamic: builds both tables from the code lengths and decodes the
      block.  The junks are what the builds' symbol arrays hold beforehand. */
  method DynamicBlock(inf: Inflater, lit: seq<nat>, dst: seq<nat>, lastInChunk: bool, junk1: seq<nat>, junk2: seq<nat>)
    returns (r: BlockResult, ghost toks: seq<Token>, ghost rest: Bits, ghost left: Bits, ghost astray: bool)
    requires inf.Valid() && LengthsOk(lit) && LengthsOk(dst) && |dst| <= 30
    requires JunkOk(junk1, |lit|, 257, LitExtras()) && JunkOk(junk2, |dst|, 0, DistExtras())
    modifies inf, inf.reader, inf.litterBuf, inf.distBuf
    ensures r == BadLengths <==> !Usable(lit, 257, LitExtras(), junk1) || !Usable(dst, 0, DistExtras(), junk2)
    ensures r.Decoded? ==> PrefixCode(lit) && PrefixCode(dst)
    ensures r.Decoded? && Acceptable(lit) && Acceptable(dst) ==> !astray
    ensures r.Decoded? ==> Report(lit, dst, old(inf.reader.Unread()), LIT_BUFSIZE - old(inf.lit), toks, r.outcome, rest, left, astray)
    ensures r.Decoded? ==> inf.Kept(old(inf.litterBuf[..inf.lit]), old(inf.distBuf[..inf.lit]), lit, dst, toks)
    ensures r == Decoded(EndOfBlock) && !astray ==>
              inf.Valid() && inf.lit == old(inf.lit) + |toks| && inf.reader.Unread() == if lastInChunk then [] else left
  {
    hide Acceptable, Usable, Oversubscribed, Complete, MaxLen, AllCodable, Sorted, Finished, ContextOk, CodeContext, Lone, InExtras, PlainExtras,
      AllHaveEntries, BuildResult, Report, Decoder, LooseDecoder, LitsOf, DistsOf, Reader.Valid, Reader.Unread, Used, Inflater.Kept;
    toks, rest, left, astray := [], [], [], false;
    var code, tl, bl, td, bd, outcome;
    code, tl, bl := BuildTable(lit, 257, LitExtras(), 9, junk1);
    if code != 0 {
      return BadLengths, toks, rest, left, astray;
    }
    code, td, bd := BuildTable(dst, 0, DistExtras(), 6, junk2);
    if code != 0 || tl == [] || td == [] {
      return BadLengths, toks, rest, left, astray;
    }
    DecodesPrefixCode(tl, bl, lit, 257, LitExtras());
    DecodesPrefixCode(td, bd, dst, 0, DistExtras());
    outcome, toks, rest, left, astray := inf.Run(tl, bl, td, bd, lastInChunk, lit, dst);
    r := Decoded(outcome);
  }

  /** A build for one of the two alphabets of a block with dynamic codes. */
  method BuildTable(lens: seq<nat>, simple: nat, extras: Extras, m: nat, junk: seq<nat>) returns (code: int, tables: Tables, bits: nat)
    requires LengthsOk(lens) && JunkOk(junk, |lens|, simple, extras)
    requires (simple == 257 && extras == LitExtras() && m == 9) || (simple == 0 && extras == DistExtras() && m == 6 && |lens| <= 30)
    ensures code == 0 && tables != [] <==> Usable(lens, simple, extras, junk)
    ensures Usable(lens, simple, extras, junk) ==> LooseDecoder(tables, bits, lens, simple, extras)
    ensures Acceptable(lens) ==> Decoder(tables, bits, lens, simple, extras) && Usable(lens, simple, extras, junk)
  {
    hide Acceptable, Oversubscribed, Complete, MaxLen, AllCodable, Sorted, Finished, ContextOk, CodeContext, Lone, InExtras, PlainExtras,
      AllHaveEntries, Decoder, LooseDecoder, LitExtras, DistExtras;
    SymbolsInExtras(288, 30);
    SymbolsInExtras(|lens|, if |lens| <= 30 then |lens| else 30);
    ghost var meta, order;
    code, tables, bits, meta, order := HuftBuild(lens, simple, extras, m, junk);
    AllSymbolsHaveEntries(order);
    FewerEntries(Coding(order, simple, extras), |lens|, if simple == 257 then 288 else 30);
    RoomForSymbols();
    BuildOfUsable(lens, Coding(order, simple, extras), m, code, tables, bits, meta, junk);
  }

  lemma FewerEntries(coding: Coding, n: nat, m: nat)
    requires AllHaveEntries(coding, m) && n <= m
    ensures AllHaveEntries(coding, n)
  {
  }

  lemma RoomForSymbols()
    ensures Pow2(9) == 512 && Pow2(6) == 64
  {
    Powers();
  }

  // ---------- The fixed codes, section 3.2.6 of RFC 1951 ----------

  function FixedLength(sym: nat): nat {
    if sym < 144 then 8 else if sym < 256 then 9 else if sym < 280 then 7 else 8
  }

  function FixedLit(): (lens: seq<nat>)
    ensures |lens| == 288
  {
    seq(288, i requires 0 <= i < 288 => FixedLength(i))
  }

  function FixedDist(): (lens: seq<nat>)
    ensures |lens| == 30
  {
    seq(30, i => 5)
  }

  function Clamp(n: int, m: nat): nat { if n <= 0 then 0 else if n >= m then m else n }

  /** How many of the first n symbols have a code of k bits. */
  function FixedCount(n: nat, k: nat): nat {
    if k == 7 then Clamp(n - 256, 24) else if k == 8 then Clamp(n, 144) + Clamp(n - 280, 8) else if k == 9 then Clamp(n - 144, 112) else 0
  }

  lemma {:induction false} FixedCounts(n: nat, k: nat)
    requires n <= 288
    ensures Count(FixedLit()[..n], k) == FixedCount(n, k)
  {
    if n > 0 {
      FixedCounts(n - 1, k);
      assert FixedLit()[..n][..n - 1] == FixedLit()[..n - 1];
    }
  }

  lemma {:induction false} FixedDistCounts(n: nat, k: nat)
    requires n <= 30
    ensures Count(FixedDist()[..n], k) == if k == 5 then n else 0
  {
    if n > 0 {
      FixedDistCounts(n - 1, k);
      assert FixedDist()[..n][..n - 1] == FixedDist()[..n - 1];
    }
  }

  /** First, End and Offset over a stretch of unused lengths. */
  lemma {:induction false} UnusedStretch(c: seq<nat>, k: nat)
    requires 1 <= k < |c| && forall j :: 1 <= j < k ==> c[j] == 0
    ensures First(c, k) == 0 && Offset(c, k) == 0
  {
    if k > 1 { UnusedStretch(c, k - 1); }
  }

  lemma FixedLitCounts()
    ensures var c := Counts(FixedLit()); c[7] == 24 && c[8] == 152 && c[9] == 112
    ensures forall k: nat :: k <= BMAX && (k < 7 || k > 9) ==> Counts(FixedLit())[k] == 0
  {
    hide Count, FixedLit;
    assert FixedLit()[..288] == FixedLit();
    forall k: nat | k <= BMAX
      ensures Counts(FixedLit())[k] == FixedCount(288, k)
    {
      FixedCounts(288, k);
    }
  }

  /** The literal code is complete. */
  lemma FixedLitComplete()
    ensures Complete(FixedLit()) && MaxLen(FixedLit()) == 9 && LookupBits(FixedLit(), 7) == 7 && LengthsOk(FixedLit())
  {
    var c := Counts(FixedLit());
    FixedLitCounts();
    FixedLengthsOk();
    hide Counts, FixedLit, Longest, Shortest, LengthsOk, Pow2;
    LongestIs(c, 9);
    ShortestIs(c, 7);
    UnusedStretch(c, 7);
    hide First, Offset;
    LitCodes(c);
    RoomForSymbols();
  }

  lemma LitCodes(c: seq<nat>)
    requires |c| == BMAX + 1 && First(c, 7) == 0 && c[7] == 24 && c[8] == 152 && c[9] == 112
    ensures End(c, 9) == 512
  {
    assert First(c, 8) == 48 && First(c, 9) == 400;
  }

  lemma FixedLengthsOk()
    ensures LengthsOk(FixedLit()) && LengthsOk(FixedDist())
  {
  }

  lemma FixedDistCount()
    ensures forall k: nat :: k <= BMAX ==> Counts(FixedDist())[k] == if k == 5 then 30 else 0
  {
    hide Count, FixedDist;
    assert FixedDist()[..30] == FixedDist();
    forall k: nat | k <= BMAX
      ensures Counts(FixedDist())[k] == if k == 5 then 30 else 0
    {
      FixedDistCounts(30, k);
    }
  }

  /** The distance code is not complete, but uses all its symbols. */
  lemma FixedDistUsed()
    ensures WellUsed(FixedDist()) && !Complete(FixedDist()) && !Oversubscribed(FixedDist())
    ensures MaxLen(FixedDist()) == 5 && LookupBits(FixedDist(), 5) == 5 && LengthsOk(FixedDist())
  {
    var c := Counts(FixedDist());
    FixedDistCount();
    FixedLengthsOk();
    hide Counts, FixedDist, Longest, Shortest, LengthsOk, Pow2;
    LongestIs(c, 5);
    ShortestIs(c, 5);
    UsedIsTop(c, 5, BMAX + 1);
    DistCodes(c);
    OversubscribedEarly(FixedDist());
  }

  lemma DistCodes(c: seq<nat>)
    requires |c| == BMAX + 1 && forall k: nat :: k <= BMAX ==> c[k] == if k == 5 then 30 else 0
    ensures Offset(c, 5) == 0 && End(c, 5) == 30 < Pow2(5) && forall k :: 1 <= k <= 5 ==> End(c, k) <= Pow2(k)
  {
    hide First, Offset;
    Powers();
    forall k | 1 <= k <= 5
      ensures End(c, k) <= Pow2(k) && (k == 5 ==> End(c, k) == 30 && Offset(c, k) == 0)
    {
      UnusedStretch(c, k);
    }
  }

  /** inflate_fixed. */
  method FixedBlock(inf: Inflater, lastInChunk: bool, junk1: seq<nat>, junk2: seq<nat>)
    returns (r: BlockResult, ghost toks: seq<Token>, ghost rest: Bits, ghost left: Bits)
    requires inf.Valid() && JunkOk(junk1, 288, 257, LitExtras()) && JunkOk(junk2, 30, 0, DistExtras())
    modifies inf, inf.reader, inf.litterBuf, inf.distBuf
    ensures r.Decoded? && PrefixCode(FixedLit()) && PrefixCode(FixedDist())
    ensures Report(FixedLit(), FixedDist(), old(inf.reader.Unread()), LIT_BUFSIZE - old(inf.lit), toks, r.outcome, rest, left, false)
    ensures inf.Kept(old(inf.litterBuf[..inf.lit]), old(inf.distBuf[..inf.lit]), FixedLit(), FixedDist(), toks)
    ensures r == Decoded(EndOfBlock) ==>
              inf.Valid() && inf.lit == old(inf.lit) + |toks| && inf.reader.Unread() == if lastInChunk then [] else left
  {
    hide Acceptable, Oversubscribed, Complete, MaxLen, AllCodable, Sorted, Finished, ContextOk, CodeContext, Lone, InExtras, PlainExtras,
      AllHaveEntries, BuildResult, Report, Decoder, LooseDecoder, LitsOf, DistsOf, Reader.Valid, Reader.Unread, Used, FixedLit, FixedDist, Inflater.Kept;
    toks, rest, left := [], [], [];
    ghost var astray;
    var code, tl, bl, td, bd, outcome;
    code, tl, bl := FixedTable(FixedLit(), 257, LitExtras(), 7, junk1);
    if code != 0 {
      return BadLengths, toks, rest, left;
    }
    code, td, bd := FixedTable(FixedDist(), 0, DistExtras(), 5, junk2);
    if code > 1 || tl == [] || td == [] {
      return BadLengths, toks, rest, left;
    }
    StrictIsLoose(tl, bl, FixedLit(), 257, LitExtras());
    StrictIsLoose(td, bd, FixedDist(), 0, DistExtras());
    DecodesPrefixCode(tl, bl, FixedLit(), 257, LitExtras());
    DecodesPrefixCode(td, bd, FixedDist(), 0, DistExtras());
    outcome, toks, rest, left, astray := inf.Run(tl, bl, td, bd, lastInChunk, FixedLit(), FixedDist());
    r := Decoded(outcome);
  }

  /** A build for a fixed code; the incomplete distance code is reported with code 1. */
  method FixedTable(lens: seq<nat>, simple: nat, extras: Extras, m: nat, junk: seq<nat>) returns (code: int, tables: Tables, bits: nat)
    requires JunkOk(junk, |lens|, simple, extras)
    requires (simple == 257 && extras == LitExtras() && m == 7 && lens == FixedLit())
             || (simple == 0 && extras == DistExtras() && m == 5 && lens == FixedDist())
    ensures code == (if lens == FixedLit() then 0 else 1) && tables != []
    ensures Decoder(tables, bits, lens, simple, extras)
  {
    hide Oversubscribed, Complete, MaxLen, AllCodable, Sorted, Finished, ContextOk, CodeContext, InExtras, PlainExtras, Padded, LookupBits,
      AllHaveEntries, Decoder, LitExtras, DistExtras, Used, FixedLit, FixedDist, WellUsed, LengthsOk, Wide;
    SymbolsInExtras(288, 30);
    FixedFacts(lens);
    ghost var meta, order;
    code, tables, bits, meta, order := HuftBuild(lens, simple, extras, m, junk);
    AllSymbolsHaveEntries(order);
    FixedDecoder(lens, Coding(order, simple, extras), m, code, tables, bits, meta);
  }

  lemma FixedFacts(lens: seq<nat>)
    requires lens == FixedLit() || lens == FixedDist()
    ensures LengthsOk(lens) && MaxLen(lens) > 1 && WellUsed(lens) && !Oversubscribed(lens)
    ensures Complete(lens) <==> lens == FixedLit()
  {
    hide Complete, MaxLen, LookupBits, FixedLit, FixedDist, Oversubscribed, Used;
    FixedLitComplete();
    FixedDistUsed();
    CompleteFits(FixedLit());
  }

  lemma {:induction false} FixedDecoder(lens: seq<nat>, coding: Coding, m: nat, code: int, tables: Tables, bits: nat, meta: seq<Meta>)
    requires (m == 7 && lens == FixedLit()) || (m == 5 && lens == FixedDist())
    requires BuildResult(lens, coding, m, code, tables, bits, meta) && AllHaveEntries(coding, |lens|)
    ensures code == (if lens == FixedLit() then 0 else 1) && tables != []
    ensures Decoder(tables, bits, lens, coding.simple, coding.extras)
  {
    hide Counts, Padded, Longest, Shortest, Used, Complete, AllCodable, Sorted, Oversubscribed, Finished, Wide, Full, Decoder, WellUsed,
      HasEntry, FixedLit, FixedDist, LookupBits;
    FixedLitComplete();
    FixedDistUsed();
    FixedFacts(lens);
    WellUsedCodable(lens, m, coding);
    FinishedHasTables(CodeContext(lens, m, coding), tables, meta);
    ShortNotWide(lens, m);
    BuiltIsDecoder(lens, coding.simple, coding.extras, m, tables, meta, coding.order);
  }

  // ---------- A batch that is cut ----------

  /** As many tokens as a batch has room for, the last one a copy. */
  ghost function CutBlock(): (block: seq<Token>)
    ensures |block| == LIT_BUFSIZE
  {
    seq(LIT_BUFSIZE - 1, i => Literal(97)) + [Copy(257, [], 0, [])]
  }

  /** In the fixed codes this is a block that FillAndResume and WholeIffLiteral speak of, and
      its batch is cut. */
  lemma CutBlockIsCut()
    ensures TokensOk(FixedLit(), FixedDist(), CutBlock()) && PrefixCode(FixedLit()) && PrefixCode(FixedDist())
    ensures FewNear(CutBlock()[..LIT_BUFSIZE - 1]) && CutBlock()[LIT_BUFSIZE - 1].Copy?
  {
    var block := CutBlock();
    assert FixedLength(97) == 8 && FixedLength(257) == 7;
    assert TokenOk(FixedLit(), FixedDist(), Literal(97)) && TokenOk(FixedLit(), FixedDist(), Copy(257, [], 0, []));
    hide FixedLit, FixedDist, TokenOk;
    FixedPrefixCode(FixedLit());
    FixedPrefixCode(FixedDist());
    var front := block[..LIT_BUFSIZE - 1];
    forall i | 0 <= i <= |front|
      ensures NearCount(front[..i]) == 0
    {
      if i > 0 { assert front[..i][i - 1].Literal?; }
    }
  }

  lemma FixedPrefixCode(lens: seq<nat>)
    requires lens == FixedLit() || lens == FixedDist()
    ensures PrefixCode(lens)
  {
    hide Complete, LookupBits, FixedLit, FixedDist, Used, PrefixCode, Counts, Longest, Padded;
    FixedFacts(lens);
    OversubscribedEarly(lens);
    PaddedIsFull(lens);
    SymbolCodes(lens);
  }
}
