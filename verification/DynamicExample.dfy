/** One block with dynamic codes, bit for bit: its header uses every kind of run, and what is
    read off it are the lengths and tokens that it was made from by hand. */
module DynamicExample {
  import opened Bits
  import opened Canonical
  import opened HuffmanTree
  import opened HuffmanBuild
  import opened HuffmanMain
  import opened BitReader
  import opened Inflate
  import opened InflateCodes
  import opened Blocks
  import opened DynamicHeader
  import opened FormatTables

  // ---------- The block ----------

  /** 258 and 4 lengths, and 18 triples for the code length code. */
  const COUNTS := "10000110000111"

  /** The triples 3, 2, 2 for the symbols 16, 17 and 18, then 2 for 2 and 3 for 1. */
  const TRIPLES := "110010010" + "000000000" + "000000000" + "000000000" + "000000000" + "010000110"

  /** 97 zeros, a 1, 158 zeros in three gaps, a 2 and five more. */
  function RunBits(): Bits {
    BitsOf("100110101") + (BitsOf("110") + (BitsOf("101111111") + (BitsOf("01111") + (BitsOf("01111") + (BitsOf("00") + (BitsOf("11101") + []))))))
  }

  /** The byte 97, a copy of three bytes at distance 1, the end. */
  function TokenBits(): Bits { BitsOf("0") + BitsOf("1100") + BitsOf("10") }

  function LitLengths(): (lens: seq<nat>)
    ensures |lens| == 258
  {
    seq(258, i => if i == 97 then 1 else if i >= 256 then 2 else 0)
  }

  function DistLengths(): (lens: seq<nat>)
    ensures |lens| == 4
  {
    seq(4, i => 2)
  }

  function LevelLengths(): (lens: seq<nat>)
    ensures |lens| == CODES
  {
    seq(CODES, i => if i == 1 || i == 16 then 3 else if i == 2 || i == 17 || i == 18 then 2 else 0)
  }

  function SentFields(): Fields { Fields(258, 4, 18, LevelLengths()) }

  // ---------- The codes are complete ----------

  lemma SmallPowers()
    ensures Pow2(0) == 1 && Pow2(1) == 2 && Pow2(2) == 4 && Pow2(3) == 8
  {
    FirstPowers();
  }

  lemma CompleteSmall(lens: seq<nat>, a: nat, b: nat, d: nat)
    requires var c := Counts(lens); c[1] == a && c[2] == b > 0 && c[3] == d && forall j :: 3 < j <= BMAX ==> c[j] == 0
    requires if d == 0 then 2 * a + b == 4 else 4 * a + 2 * b + d == 8
    ensures Complete(lens) && First(Counts(lens), 1) == 0 && First(Counts(lens), 2) == 2 * a && First(Counts(lens), 3) == 4 * a + 2 * b
  {
    hide Counts, Longest, Pow2;
    var c := Counts(lens);
    SmallPowers();
    LongestIs(c, if d == 0 then 2 else 3);
    assert First(c, 1) == 0;
    assert First(c, 2) == 2 * (First(c, 1) + c[1]);
    assert First(c, 3) == 2 * (First(c, 2) + c[2]);
    assert MaxLen(lens) == if d == 0 then 2 else 3;
  }

  /** A code word by the number of symbols with shorter codes, and with codes as long. */
  lemma WordAt(lens: seq<nat>, sym: nat, k: nat, f: nat -> nat, code: nat)
    requires sym < |lens| && lens[sym] == k && 1 <= k <= BMAX && CountedBy(lens, k, f) && First(Counts(lens), k) + f(sym) == code
    ensures Coded(lens, sym) && Word(lens, sym) == CodeBits(code, k)
  {
    hide Count, First, Counts, CodeBits;
    CountIs(lens, k, f, sym);
  }

  lemma Counted(lens: seq<nat>, k: nat, f: nat -> nat)
    requires CountedBy(lens, k, f)
    ensures Count(lens, k) == f(|lens|)
  {
    CountIs(lens, k, f, |lens|);
    assert lens[..|lens|] == lens;
  }

  function LitCount(k: nat, n: nat): nat {
    if k == 1 then (if n > 97 then 1 else 0) else if k == 2 then (if n > 256 then n - 256 else 0) else 0
  }

  lemma LitCountedBy(k: nat)
    requires k >= 1
    ensures CountedBy(LitLengths(), k, n => LitCount(k, n))
  {
  }

  lemma LitCode()
    ensures Complete(LitLengths()) && First(Counts(LitLengths()), 1) == 0 && First(Counts(LitLengths()), 2) == 2
  {
    hide Count, LitLengths, First, Complete;
    forall k: nat | 1 <= k <= BMAX
      ensures Counts(LitLengths())[k] == LitCount(k, 258)
    {
      LitCountedBy(k);
      Counted(LitLengths(), k, n => LitCount(k, n));
    }
    CompleteSmall(LitLengths(), 1, 2, 0);
  }

  lemma LitWords()
    ensures Coded(LitLengths(), 97) && Word(LitLengths(), 97) == BitsOf("0")
    ensures Coded(LitLengths(), 256) && Word(LitLengths(), 256) == BitsOf("10")
    ensures Coded(LitLengths(), 257) && Word(LitLengths(), 257) == BitsOf("11")
  {
    hide Word, CodeBits, First, Counts;
    LitCode();
    LitCountedBy(1);
    LitCountedBy(2);
    WordAt(LitLengths(), 97, 1, n => LitCount(1, n), 0);
    WordAt(LitLengths(), 256, 2, n => LitCount(2, n), 2);
    WordAt(LitLengths(), 257, 2, n => LitCount(2, n), 3);
    ShortWords();
  }

  lemma ShortWords()
    ensures CodeBits(0, 1) == BitsOf("0") && CodeBits(0, 2) == BitsOf("00") && CodeBits(1, 2) == BitsOf("01")
    ensures CodeBits(2, 2) == BitsOf("10") && CodeBits(3, 2) == BitsOf("11") && CodeBits(6, 3) == BitsOf("110") && CodeBits(7, 3) == BitsOf("111")
  {
  }

  lemma DistCountedBy(k: nat)
    ensures CountedBy(DistLengths(), k, n => if k == 2 then n else 0)
  {
  }

  lemma DistCode()
    ensures Complete(DistLengths()) && First(Counts(DistLengths()), 2) == 0
    ensures Coded(DistLengths(), 0) && Word(DistLengths(), 0) == BitsOf("00")
  {
    hide Count, DistLengths, First, Complete;
    forall k: nat | 1 <= k <= BMAX
      ensures Counts(DistLengths())[k] == if k == 2 then 4 else 0
    {
      DistCountedBy(k);
      Counted(DistLengths(), k, n => if k == 2 then n else 0);
    }
    CompleteSmall(DistLengths(), 0, 4, 0);
    FirstDistance();
  }

  lemma FirstDistance()
    requires First(Counts(DistLengths()), 2) == 0
    ensures Coded(DistLengths(), 0) && Word(DistLengths(), 0) == BitsOf("00")
  {
    hide First, Counts;
    NoSymbols(2);
    assert DistLengths()[..0] == [];
    ShortWords();
  }

  function LevelCount(k: nat, n: nat): nat {
    if k == 2 then (if n > 2 then 1 else 0) + (if n > 17 then 1 else 0) + (if n > 18 then 1 else 0)
    else if k == 3 then (if n > 1 then 1 else 0) + (if n > 16 then 1 else 0)
    else 0
  }

  lemma LevelCountedBy(k: nat)
    requires k >= 1
    ensures CountedBy(LevelLengths(), k, n => LevelCount(k, n))
  {
  }

  lemma LevelCode()
    ensures Complete(LevelLengths()) && First(Counts(LevelLengths()), 2) == 0 && First(Counts(LevelLengths()), 3) == 6
  {
    hide Count, LevelLengths, First, Complete;
    forall k: nat | 1 <= k <= BMAX
      ensures Counts(LevelLengths())[k] == LevelCount(k, 19)
    {
      LevelCountedBy(k);
      Counted(LevelLengths(), k, n => LevelCount(k, n));
    }
    CompleteSmall(LevelLengths(), 0, 3, 2);
  }

  lemma LevelWords()
    ensures Coded(LevelLengths(), 1) && Word(LevelLengths(), 1) == BitsOf("110")
    ensures Coded(LevelLengths(), 2) && Word(LevelLengths(), 2) == BitsOf("00")
    ensures Coded(LevelLengths(), 16) && Word(LevelLengths(), 16) == BitsOf("111")
    ensures Coded(LevelLengths(), 17) && Word(LevelLengths(), 17) == BitsOf("01")
    ensures Coded(LevelLengths(), 18) && Word(LevelLengths(), 18) == BitsOf("10")
  {
    hide Word, CodeBits, First, Counts;
    LevelCode();
    LevelCountedBy(2);
    LevelCountedBy(3);
    WordAt(LevelLengths(), 1, 3, n => LevelCount(3, n), 6);
    WordAt(LevelLengths(), 16, 3, n => LevelCount(3, n), 7);
    WordAt(LevelLengths(), 2, 2, n => LevelCount(2, n), 0);
    WordAt(LevelLengths(), 17, 2, n => LevelCount(2, n), 1);
    WordAt(LevelLengths(), 18, 2, n => LevelCount(2, n), 2);
    ShortWords();
  }

  // ---------- The runs ----------

  lemma LongGapBits()
    ensures ToBits(86, 7) == BitsOf("0110101")
  {
  }

  lemma LongestGapBits()
    ensures ToBits(127, 7) == BitsOf("1111111")
  {
  }

  lemma ShortGapBits()
    ensures ToBits(7, 3) == BitsOf("111") && ToBits(2, 2) == BitsOf("01")
  {
  }

  lemma ExtraValues()
    ensures Lsb(BitsOf("0110101")) == 86 && Lsb(BitsOf("1111111")) == 127 && Lsb(BitsOf("111")) == 7 && Lsb(BitsOf("01")) == 2
  {
    hide ToBits, Lsb;
    Powers();
    LongGapBits();
    LongestGapBits();
    ShortGapBits();
    hide BitsOf;
    ValueOf(86, 7);
    ValueOf(127, 7);
    ValueOf(7, 3);
    ValueOf(2, 2);
  }

  function SentRuns(): seq<Run> {
    [LongGap(BitsOf("0110101")), Len(1), LongGap(BitsOf("1111111")), ShortGap(BitsOf("111")), ShortGap(BitsOf("111")), Len(2), Again(BitsOf("01"))]
  }

  lemma EncodeFirst(cl: seq<nat>, run: Run, rest: seq<Run>, x: Bits)
    requires run.Ok(cl) && RunsOk(cl, rest) && EncodeRuns(cl, rest) == x
    ensures RunsOk(cl, [run] + rest) && EncodeRuns(cl, [run] + rest) == run.Encode(cl) + x
  {
    assert ([run] + rest)[1..] == rest;
  }

  /** Each run, bit for bit. */
  lemma EachRun()
    ensures forall i :: 0 <= i < 7 ==> SentRuns()[i].Ok(LevelLengths())
    ensures SentRuns()[0].Encode(LevelLengths()) == BitsOf("100110101") && SentRuns()[1].Encode(LevelLengths()) == BitsOf("110")
    ensures SentRuns()[2].Encode(LevelLengths()) == BitsOf("101111111") && SentRuns()[3].Encode(LevelLengths()) == BitsOf("01111")
    ensures SentRuns()[4].Encode(LevelLengths()) == BitsOf("01111") && SentRuns()[5].Encode(LevelLengths()) == BitsOf("00")
    ensures SentRuns()[6].Encode(LevelLengths()) == BitsOf("11101")
  {
    hide Word, LevelLengths, Coded;
    LevelWords();
  }

  lemma RunsFit()
    ensures RunsOk(LevelLengths(), SentRuns())
    ensures EncodeRuns(LevelLengths(), SentRuns()) == RunBits()
  {
    hide LevelLengths, EncodeRuns, RunsOk, Run.Ok, Run.Encode;
    var cl, r := LevelLengths(), SentRuns();
    EachRun();
    NoRuns(cl);
    hide BitsOf;
    EncodeFirst(cl, r[6], [], []);
    assert [r[6]] + [] == r[6..];
    EncodeFirst(cl, r[5], r[6..], EncodeRuns(cl, r[6..]));
    assert [r[5]] + r[6..] == r[5..];
    EncodeFirst(cl, r[4], r[5..], EncodeRuns(cl, r[5..]));
    assert [r[4]] + r[5..] == r[4..];
    EncodeFirst(cl, r[3], r[4..], EncodeRuns(cl, r[4..]));
    assert [r[3]] + r[4..] == r[3..];
    EncodeFirst(cl, r[2], r[3..], EncodeRuns(cl, r[3..]));
    assert [r[2]] + r[3..] == r[2..];
    EncodeFirst(cl, r[1], r[2..], EncodeRuns(cl, r[2..]));
    assert [r[1]] + r[2..] == r[1..];
    EncodeFirst(cl, r[0], r[1..], EncodeRuns(cl, r[1..]));
    assert [r[0]] + r[1..] == r;
  }

  /** What the runs stand for. */
  lemma ExpandNext(runs: seq<Run>, run: Run, s: seq<nat>)
    requires Expand(runs) == s
    ensures Expand(runs + [run]) == s + run.Lengths(Last(s))
  {
    assert (runs + [run])[..|runs|] == runs;
  }

  lemma RunLengths()
    ensures var r := SentRuns();
            forall last: nat :: r[0].Lengths(last) == Repeat(0, 97) && r[1].Lengths(last) == [1] && r[2].Lengths(last) == Repeat(0, 138)
                                && r[3].Lengths(last) == r[4].Lengths(last) == Repeat(0, 10) && r[5].Lengths(last) == [2]
                                && r[6].Lengths(last) == Repeat(last, 5)
  {
    ExtraValues();
    hide Lsb, BitsOf;
  }

  lemma RunsExpand()
    ensures Expand(SentRuns()) == LitLengths() + DistLengths()
  {
    hide Expand, Run.Lengths;
    var r := SentRuns();
    RunLengths();
    assert Expand([]) == [] by { NoRuns([]); }
    var s1 := Repeat(0, 97);
    ExpandNext([], r[0], []);
    assert [] + [r[0]] == r[..1] && [] + s1 == s1;
    var s2 := s1 + [1];
    ExpandNext(r[..1], r[1], s1);
    assert r[..1] + [r[1]] == r[..2];
    var s3 := s2 + Repeat(0, 138);
    ExpandNext(r[..2], r[2], s2);
    assert r[..2] + [r[2]] == r[..3];
    var s4 := s3 + Repeat(0, 10);
    ExpandNext(r[..3], r[3], s3);
    assert r[..3] + [r[3]] == r[..4];
    var s5 := s4 + Repeat(0, 10);
    ExpandNext(r[..4], r[4], s4);
    assert r[..4] + [r[4]] == r[..5];
    var s6 := s5 + [2];
    ExpandNext(r[..5], r[5], s5);
    assert r[..5] + [r[5]] == r[..6];
    var s7 := s6 + Repeat(2, 5);
    ExpandNext(r[..6], r[6], s6);
    assert r[..6] + [r[6]] == r;
    assert s7 == LitLengths() + DistLengths();
  }

  // ---------- The fields and the tokens ----------

  lemma FieldsOk()
    ensures SentFields().Ok()
  {
  }

  lemma LitCountBits()
    ensures ToBits(1, 5) == BitsOf("10000")
  {
  }

  lemma DistCountBits()
    ensures ToBits(3, 5) == BitsOf("11000")
  {
  }

  lemma TripleCountBits()
    ensures ToBits(14, 4) == BitsOf("0111")
  {
  }

  lemma CountBits()
    ensures ToBits(1, 5) + ToBits(3, 5) + ToBits(14, 4) == BitsOf(COUNTS)
  {
    hide ToBits;
    LitCountBits();
    DistCountBits();
    TripleCountBits();
    assert COUNTS == "10000" + "11000" + "0111";
  }

  lemma TripleBits()
    ensures ToBits(0, 3) == BitsOf("000") && ToBits(2, 3) == BitsOf("010") && ToBits(3, 3) == BitsOf("110")
  {
  }

  /** The triples, one after the other. */
  lemma {:induction false} TriplesAre(n: nat)
    requires n <= 18
    ensures LengthBits(LevelLengths(), n) == BitsOf(TRIPLES)[..3 * n]
  {
    if n > 0 {
      TriplesAre(n - 1);
      OneTriple(n - 1);
      hide LengthBits, Border, ToBits, LevelLengths, BitsOf;
      LengthBitsNext(n);
    }
  }

  lemma LengthBitsNext(n: nat)
    requires 1 <= n <= 18
    ensures Border()[n - 1] < CODES && LengthBits(LevelLengths(), n) == LengthBits(LevelLengths(), n - 1) + ToBits(LevelLengths()[Border()[n - 1]], 3)
  {
    hide LevelLengths, ToBits;
    BorderInverse(n - 1);
  }

  /** Where the ones are. */
  lemma Ones(j: nat)
    requires j < 54
    ensures TRIPLES[j] == '1' <==> j == 0 || j == 1 || j == 4 || j == 7 || j == 46 || j == 51 || j == 52
  {
  }

  lemma OneTriple(i: nat)
    requires i < 18
    ensures Border()[i] < CODES && ToBits(LevelLengths()[Border()[i]], 3) == BitsOf(TRIPLES)[3 * i..3 * i + 3]
  {
    hide ToBits, LevelLengths;
    var got := BitsOf(TRIPLES)[3 * i..3 * i + 3];
    Ones(3 * i);
    Ones(3 * i + 1);
    Ones(3 * i + 2);
    assert got == [TRIPLES[3 * i] == '1', TRIPLES[3 * i + 1] == '1', TRIPLES[3 * i + 2] == '1'];
    OneLength(i);
    TripleBits();
  }

  lemma OneLength(i: nat)
    requires i < 18
    ensures Border()[i] < CODES
    ensures LevelLengths()[Border()[i]] == if i == 0 || i == 17 then 3 else if i == 1 || i == 2 || i == 15 then 2 else 0
  {
  }

  lemma FieldsBits()
    ensures SentFields().Ok() && SentFields().Encode() == BitsOf(COUNTS) + BitsOf(TRIPLES)
  {
    FieldsOk();
    hide LevelLengths, LengthBits, ToBits, BitsOf, Fields.Ok;
    CountBits();
    TriplesAre(18);
    assert BitsOf(TRIPLES)[..3 * 18] == BitsOf(TRIPLES);
  }

  /** The byte 97, then three bytes from one place back. */
  function SentTokens(): seq<Token> { [Literal(97), Copy(257, [], 0, [])] }

  lemma TokensFit()
    ensures TokensOk(LitLengths(), DistLengths(), SentTokens()) && Coded(LitLengths(), END_OF_BLOCK)
    ensures EncodeAll(LitLengths(), DistLengths(), SentTokens()) == BitsOf("0") + BitsOf("1100")
    ensures Word(LitLengths(), END_OF_BLOCK) == BitsOf("10")
  {
    hide Word, LitLengths, DistLengths, Coded, TokenOk, Encode;
    LitWords();
    CopyFits();
    LiteralFits();
    hide BitsOf;
    var toks := SentTokens();
    assert toks[1..] == [toks[1]] && toks[1..][1..] == [];
  }

  lemma LiteralFits()
    ensures TokenOk(LitLengths(), DistLengths(), Literal(97)) && Encode(LitLengths(), DistLengths(), Literal(97)) == BitsOf("0")
  {
    hide Word, LitLengths, DistLengths, Coded;
    LitWords();
  }

  lemma CopyFits()
    ensures TokenOk(LitLengths(), DistLengths(), Copy(257, [], 0, [])) && Encode(LitLengths(), DistLengths(), Copy(257, [], 0, [])) == BitsOf("1100")
  {
    hide Word, LitLengths, DistLengths, Coded, BitsOf, Complete, First, Counts, CpLext, CpDext;
    LitWords();
    DistCode();
    FirstTables();
    JoinedWords();
  }

  lemma JoinedWords()
    ensures BitsOf("11") + [] + (BitsOf("00") + []) == BitsOf("1100")
  {
  }

  lemma FirstTables()
    ensures CpLext()[0] == 0 && CpDext()[0] == 0
  {
  }

  /** What the scanner is given for the two tokens: the byte, then length 3 at distance 1. */
  lemma PairsAre()
    ensures TokensOk(LitLengths(), DistLengths(), SentTokens())
    ensures LitsOf(LitLengths(), DistLengths(), SentTokens()) == [97, 0]
    ensures DistsOf(LitLengths(), DistLengths(), SentTokens()) == [0, 1]
  {
    hide LitLengths, DistLengths, TokenOk;
    TokensFit();
    FirstBases();
    hide CpLens, CpDist, Coded;
  }

  lemma FirstBases()
    ensures CpLens()[0] == 3 && CpDist()[0] == 1
  {
  }

  lemma FewNearSent()
    ensures FewNear(SentTokens())
  {
  }

  lemma AllAcceptable(junk: seq<nat>)
    ensures LevelOk(LevelLengths(), junk) && Acceptable(LitLengths()) && Acceptable(DistLengths())
  {
    hide Complete, LevelLengths, LitLengths, DistLengths;
    LevelCode();
    LitCode();
    DistCode();
  }

  /** The block's bits, and whatever follows, are read to the lengths and the tokens. */
  lemma BlockIsRead(before: Bits, tail: Bits, room: nat, r: DynamicResult, h: Fields, runs: seq<Run>, data: Bits, toks: seq<Token>, rest: Bits,
                    left: Bits, junk0: seq<nat>, junk1: seq<nat>, junk2: seq<nat>, lost: bool, astray: bool)
    requires before == BitsOf(COUNTS) + BitsOf(TRIPLES) + (RunBits() + (TokenBits() + tail)) && |tail| > BMAX && room > 2
    requires DynamicReport(before, room, r, h, runs, data, toks, rest, left, junk0, junk1, junk2, lost, astray)
    ensures r == Block(Decoded(EndOfBlock)) && left == tail && !lost && !astray
    ensures toks == [Literal(97), Copy(257, [], 0, [])]
    ensures Codes(h, runs) == (LitLengths(), DistLengths())
    ensures TokensOk(LitLengths(), DistLengths(), toks)
    ensures LitsOf(LitLengths(), DistLengths(), toks) == [97, 0] && DistsOf(LitLengths(), DistLengths(), toks) == [0, 1]
  {
    hide LitsOf, DistsOf, Acceptable, Complete, Lone, DynamicReport, Expand, RunsOk, EncodeRuns, TokensOk, FewNear, EncodeAll, Word, Fields.Encode,
      Fields.Ok, LevelOk, Coded, BitsOf, LevelLengths, LitLengths, DistLengths, RunBits, HeaderReport;
    FieldsBits();
    RunsFit();
    RunsExpand();
    TokensFit();
    PairsAre();
    FewNearSent();
    AllAcceptable(junk0);
    var lit, dst, block := LitLengths(), DistLengths(), SentTokens();
    assert TokenBits() + tail == EncodeAll(lit, dst, block) + (Word(lit, END_OF_BLOCK) + tail);
    DynamicIsDecoded(before, room, r, h, runs, data, toks, rest, left, junk0, junk1, junk2, lost, astray,
                     SentFields(), SentRuns(), lit, dst, block, tail);
    CodesAreSent(before, room, r, h, runs, data, toks, rest, left, junk0, junk1, junk2, tail);
  }

  lemma CodesAreSent(before: Bits, room: nat, r: DynamicResult, h: Fields, runs: seq<Run>, data: Bits, toks: seq<Token>, rest: Bits,
                     left: Bits, junk0: seq<nat>, junk1: seq<nat>, junk2: seq<nat>, tail: Bits)
    requires DynamicReport(before, room, r, h, runs, data, toks, rest, left, junk0, junk1, junk2, false, false) && r.Block?
    requires SentFields().Ok() && LevelOk(LevelLengths(), junk0) && RunsOk(LevelLengths(), SentRuns())
    requires Expand(SentRuns()) == LitLengths() + DistLengths()
    requires before == SentFields().Encode() + (EncodeRuns(LevelLengths(), SentRuns()) + (TokenBits() + tail)) && |tail| >= 14
    ensures Codes(h, runs) == (LitLengths(), DistLengths())
  {
    hide Acceptable, Complete, Lone, Expand, RunsOk, EncodeRuns, Fields.Encode, Fields.Ok, LevelOk, LevelLengths, LitLengths, DistLengths,
      HeaderReport, Codes, Report, Usable, SentRuns;
    var (lit, dst) := Codes(h, runs);
    HeaderIsRead(before, GotLengths(lit, dst), h, runs, data, junk0, false, SentFields(), SentRuns(), TokenBits() + tail);
  }
}
