/** The tables of DEFLATE in numbers: code words, lengths and distances, and the order of the
    code length code, as RFC 1951 spells them out. */
module FormatTables {
  import opened Bits
  import opened Canonical
  import opened HuffmanTree
  import opened HuffmanMain
  import opened Inflate
  import opened InflateCodes
  import opened Blocks
  import opened DynamicHeader

  /** Bits as they are written down, first bit first. */
  function BitsOf(text: string): (bits: Bits)
    ensures |bits| == |text| && forall i :: 0 <= i < |text| ==> bits[i] == (text[i] == '1')
  {
    seq(|text|, i requires 0 <= i < |text| => text[i] == '1')
  }

  // ---------- Code words ----------

  /** f counts the symbols with a code of k bits. */
  ghost predicate CountedBy(lens: seq<nat>, k: nat, f: nat -> nat) {
    f(0) == 0 && forall n: nat :: n < |lens| ==> f(n + 1) == f(n) + (if lens[n] == k then 1 else 0)
  }

  lemma {:induction false} CountIs(lens: seq<nat>, k: nat, f: nat -> nat, n: nat)
    requires CountedBy(lens, k, f) && n <= |lens|
    ensures Count(lens[..n], k) == f(n)
  {
    if n > 0 {
      CountIs(lens, k, f, n - 1);
      assert lens[..n][..n - 1] == lens[..n - 1];
      assert f(n - 1 + 1) == f(n);
    }
  }

  /** The lengths of the example in section 3.2.2. */
  function RfcLengths(): (lens: seq<nat>)
    ensures |lens| == 8
  {
    [3, 3, 3, 3, 3, 2, 4, 4]
  }

  function RfcCount(k: nat, n: nat): nat {
    if k == 2 then (if n > 5 then 1 else 0) else if k == 3 then (if n < 5 then n else 5) else if k == 4 then (if n > 6 then n - 6 else 0) else 0
  }

  lemma RfcCounts(k: nat, n: nat)
    requires n <= 8 && k >= 1
    ensures Count(RfcLengths()[..n], k) == RfcCount(k, n)
  {
    CountIs(RfcLengths(), k, m => RfcCount(k, m), n);
  }

  lemma RfcFirst()
    ensures var c := Counts(RfcLengths()); First(c, 2) == 0 && First(c, 3) == 2 && First(c, 4) == 14
  {
    hide Count, RfcLengths;
    assert RfcLengths()[..8] == RfcLengths();
    RfcCounts(1, 8);
    RfcCounts(2, 8);
    RfcCounts(3, 8);
  }

  /** The code of the example: the RFC's table, bit for bit. */
  lemma RfcExample()
    ensures forall sym: nat :: sym < 8 ==> Coded(RfcLengths(), sym)
    ensures Word(RfcLengths(), 0) == BitsOf("010") && Word(RfcLengths(), 1) == BitsOf("011")
    ensures Word(RfcLengths(), 2) == BitsOf("100") && Word(RfcLengths(), 3) == BitsOf("101")
    ensures Word(RfcLengths(), 4) == BitsOf("110") && Word(RfcLengths(), 5) == BitsOf("00")
    ensures Word(RfcLengths(), 6) == BitsOf("1110") && Word(RfcLengths(), 7) == BitsOf("1111")
  {
    hide Word, CodeBits, RfcLengths;
    forall sym: nat | sym < 8 ensures Coded(RfcLengths(), sym) { RfcWord(sym); }
    RfcWord(0); RfcWord(1); RfcWord(2); RfcWord(3); RfcWord(4); RfcWord(5); RfcWord(6); RfcWord(7);
    Threes();
    Others();
  }

  lemma Threes()
    ensures CodeBits(2, 3) == BitsOf("010") && CodeBits(3, 3) == BitsOf("011") && CodeBits(4, 3) == BitsOf("100")
    ensures CodeBits(5, 3) == BitsOf("101") && CodeBits(6, 3) == BitsOf("110")
  {
  }

  lemma Others()
    ensures CodeBits(0, 2) == BitsOf("00") && CodeBits(14, 4) == BitsOf("1110") && CodeBits(15, 4) == BitsOf("1111")
  {
  }

  lemma RfcWord(sym: nat)
    requires sym < 8
    ensures Coded(RfcLengths(), sym)
    ensures Word(RfcLengths(), sym) == if sym < 5 then CodeBits(2 + sym, 3) else if sym == 5 then CodeBits(0, 2) else CodeBits(14 + (sym - 6), 4)
  {
    hide Count, First, CodeBits;
    RfcFirst();
    RfcCounts(RfcLengths()[sym], sym);
  }

  // ---------- The fixed codes, section 3.2.6 ----------

  lemma FixedFirst()
    ensures var c := Counts(FixedLit()); First(c, 7) == 0 && First(c, 8) == 48 && First(c, 9) == 400
  {
    var c := Counts(FixedLit());
    FixedLitCounts();
    hide Counts, FixedLit;
    UnusedStretch(c, 7);
  }

  /** The literal code words: each of the four ranges counts up from its first word. */
  lemma FixedLitWord(sym: nat)
    requires sym < 288
    ensures Coded(FixedLit(), sym)
    ensures Word(FixedLit(), sym) ==
            if sym < 144 then CodeBits(48 + sym, 8)
            else if sym < 256 then CodeBits(400 + (sym - 144), 9)
            else if sym < 280 then CodeBits(sym - 256, 7)
            else CodeBits(192 + (sym - 280), 8)
  {
    hide Count, First, CodeBits;
    FixedFirst();
    FixedCounts(sym, FixedLit()[sym]);
  }

  /** The ends of the ranges, bit for bit. */
  lemma FixedLitWords()
    ensures forall sym: nat :: sym < 288 ==> Coded(FixedLit(), sym)
    ensures Word(FixedLit(), 0) == BitsOf("00110000") && Word(FixedLit(), 143) == BitsOf("10111111")
    ensures Word(FixedLit(), 144) == BitsOf("110010000") && Word(FixedLit(), 255) == BitsOf("111111111")
    ensures Word(FixedLit(), 256) == BitsOf("0000000") && Word(FixedLit(), 279) == BitsOf("0010111")
    ensures Word(FixedLit(), 280) == BitsOf("11000000") && Word(FixedLit(), 287) == BitsOf("11000111")
  {
    hide Word, FixedLit, CodeBits;
    FixedLitWord(0); FixedLitWord(143); FixedLitWord(144); FixedLitWord(255);
    FixedLitWord(256); FixedLitWord(279); FixedLitWord(280); FixedLitWord(287);
    forall sym: nat | sym < 288 ensures Coded(FixedLit(), sym) { FixedLitWord(sym); }
    LowerEight(); UpperEight(); LowerNine(); UpperNine(); LowerLast(); UpperLast();
    Seven();
  }

  lemma LowerEight()
    ensures CodeBits(48, 8) == BitsOf("00110000")
  {
  }

  lemma UpperEight()
    ensures CodeBits(191, 8) == BitsOf("10111111")
  {
  }

  lemma LowerNine()
    ensures CodeBits(400, 9) == BitsOf("110010000")
  {
  }

  lemma UpperNine()
    ensures CodeBits(511, 9) == BitsOf("111111111")
  {
  }

  lemma LowerLast()
    ensures CodeBits(192, 8) == BitsOf("11000000")
  {
  }

  lemma UpperLast()
    ensures CodeBits(199, 8) == BitsOf("11000111")
  {
  }

  lemma Seven()
    ensures CodeBits(0, 7) == BitsOf("0000000") && CodeBits(23, 7) == BitsOf("0010111")
  {
  }

  /** Distances are fixed five-bit numbers. */
  lemma FixedDistWord(sym: nat)
    requires sym < 30
    ensures Coded(FixedDist(), sym) && Word(FixedDist(), sym) == CodeBits(sym, 5)
  {
    hide Count, First, CodeBits;
    FixedDistCount();
    FixedDistCounts(sym, 5);
    DistFirst(Counts(FixedDist()));
  }

  lemma DistFirst(c: seq<nat>)
    requires |c| == BMAX + 1 && forall k: nat :: k <= BMAX ==> c[k] == if k == 5 then 30 else 0
    ensures First(c, 5) == 0
  {
    UnusedStretch(c, 5);
  }

  // ---------- Lengths and distances, section 3.2.5 ----------

  /** Each symbol's extra bits and the first length that it stands for. */
  lemma LengthTable(s: nat)
    requires 257 <= s <= 285
    ensures CpLext()[s - 257] == if s <= 264 || s == 285 then 0 else (s - 261) / 4
    ensures CpLens()[s - 257] == if s <= 264 then s - 254
                                 else if s <= 268 then 11 + 2 * (s - 265)
                                 else if s <= 272 then 19 + 4 * (s - 269)
                                 else if s <= 276 then 35 + 8 * (s - 273)
                                 else if s <= 280 then 67 + 16 * (s - 277)
                                 else if s <= 284 then 131 + 32 * (s - 281)
                                 else 258
  {
  }

  /** The same for distances: two symbols for each number of extra bits. */
  lemma DistanceTable(s: nat)
    requires s < 30
    ensures CpDext()[s] == if s < 4 then 0 else s / 2 - 1
    ensures CpDist()[s] == if s < 4 then s + 1
                           else if s % 2 == 0 then Pow2(s / 2) + 1
                           else Pow2(s / 2) + Pow2(s / 2 - 1) + 1
  {
    Powers();
    assert Pow2(14) == 2 * Pow2(13);
    hide Pow2;
    DistanceExtra(s);
    hide CpDext;
  }

  lemma DistanceExtra(s: nat)
    requires s < 30
    ensures CpDext()[s] == if s < 4 then 0 else s / 2 - 1
  {
  }

  /** A copy of 35 + 5 bytes from 33 + 6 back: extra bits come least significant first, and the
      scanner is given the length less 3. */
  lemma KnownCopy(lit: seq<nat>, dst: seq<nat>)
    requires Coded(lit, 273) && Coded(dst, 10)
    ensures var tok := Copy(273, BitsOf("101"), 10, BitsOf("0110"));
            TokenOk(lit, dst, tok) && LitOf(lit, dst, tok) == 37 && DistOf(lit, dst, tok) == 39
  {
    hide Coded;
    LengthTable(273);
    KnownDistance();
    KnownValues();
    hide CpLens, CpLext, CpDist, CpDext, Lsb, BitsOf;
  }

  lemma KnownDistance()
    ensures CpDist()[10] == 33 && CpDext()[10] == 4
  {
  }

  lemma KnownValues()
    ensures Lsb(BitsOf("101")) == 5 && Lsb(BitsOf("0110")) == 6
  {
    assert BitsOf("101") == [true, false, true] && BitsOf("0110") == [false, true, true, false];
    hide BitsOf;
  }

  // ---------- The order of the code length code, section 3.2.7 ----------

  /** The i-th triple behind the first fourteen bits of a header is the length for the i-th of
      these nineteen symbols. */
  lemma {:induction false} TripleIsFor(h: Fields, i: nat)
    requires h.Ok() && i < h.nb
    ensures var order := [16, 17, 18, 0, 8, 7, 9, 6, 10, 5, 11, 4, 12, 3, 13, 2, 14, 1, 15];
            order[i] < CODES && h.Encode()[14 + 3 * i..17 + 3 * i] == ToBits(h.cl[order[i]], 3)
  {
    hide ToBits, LengthBits;
    var front := ToBits(h.nl - 257, 5) + ToBits(h.nd - 1, 5) + ToBits(h.nb - 4, 4);
    TripleOf(h.cl, h.nb, i);
    BorderInverse(i);
    assert h.Encode() == front + LengthBits(h.cl, h.nb);
    assert h.Encode()[14 + 3 * i..17 + 3 * i] == LengthBits(h.cl, h.nb)[3 * i..3 * i + 3];
  }

  /** And so they are read, from whatever bits. */
  lemma TripleIsRead(before: Bits, h: Fields, i: nat)
    requires FieldsIn(before, h) && i < h.nb
    ensures var order := [16, 17, 18, 0, 8, 7, 9, 6, 10, 5, 11, 4, 12, 3, 13, 2, 14, 1, 15];
            order[i] < CODES && h.cl[order[i]] == Lsb(before[14 + 3 * i..17 + 3 * i])
  {
    hide Lsb;
    BorderInverse(i);
    assert before[14..][3 * i..3 * i + 3] == before[14 + 3 * i..17 + 3 * i];
  }
}
