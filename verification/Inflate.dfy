/** The compressed data of one block: the symbol fetch, the token loop of inflate_codes,
    and the code that it decodes, section 3.2.5 of RFC 1951. */
module Inflate {
  import opened Bits
  import opened Canonical
  import opened HuffmanTree
  import opened HuffmanMain
  import opened BitReader

  // ---------- The code of section 3.2.5 ----------

  function CpLens(): (r: seq<nat>)
    ensures |r| == 31
  {
    [
    3, 4, 5, 6, 7, 8, 9, 10, 11, 13, 15, 17, 19, 23, 27, 31,
    35, 43, 51, 59, 67, 83, 99, 115, 131, 163, 195, 227, 258, 0, 0]
  }

  function CpLext(): (r: seq<nat>)
    ensures |r| == 31
  {
    [
    0, 0, 0, 0, 0, 0, 0, 0, 1, 1, 1, 1, 2, 2, 2, 2,
    3, 3, 3, 3, 4, 4, 4, 4, 5, 5, 5, 5, 0, 99, 99]
  }

  function CpDist(): (r: seq<nat>)
    ensures |r| == 30
  {
    [
    1, 2, 3, 4, 5, 7, 9, 13, 17, 25, 33, 49, 65, 97, 129, 193,
    257, 385, 513, 769, 1025, 1537, 2049, 3073, 4097, 6145,
    8193, 12289, 16385, 24577]
  }

  function CpDext(): (r: seq<nat>)
    ensures |r| == 30
  {
    [
    0, 0, 0, 0, 1, 1, 2, 2, 3, 3, 4, 4, 5, 5, 6, 6,
    7, 7, 8, 8, 9, 9, 10, 10, 11, 11,
    12, 12, 13, 13]
  }

  const END_OF_BLOCK := 256
  const LIT_BUFSIZE := 0x8000

  /** A symbol with a code. */
  predicate Coded(lens: seq<nat>, sym: nat) {
    sym < |lens| && 1 <= lens[sym] <= BMAX
  }

  function Word(lens: seq<nat>, sym: nat): (w: Bits)
    requires Coded(lens, sym)
    ensures |w| == lens[sym]
  {
    SlotOf(lens, sym).Word()
  }

  /** A literal byte, or a copy: a length and a distance, each a symbol and extra bits. */
  datatype Token = Literal(sym: nat) | Copy(sym: nat, more: Bits, dist: nat, dmore: Bits)

  ghost predicate LengthOk(lit: seq<nat>, sym: nat, more: Bits) {
    Coded(lit, sym) && 257 <= sym <= 285 && |more| == CpLext()[sym - 257]
  }

  ghost predicate DistanceOk(dst: seq<nat>, dist: nat, dmore: Bits) {
    Coded(dst, dist) && dist < 30 && |dmore| == CpDext()[dist]
  }

  ghost predicate TokenOk(lit: seq<nat>, dst: seq<nat>, tok: Token) {
    match tok
    case Literal(sym) => Coded(lit, sym) && sym < 256
    case Copy(sym, more, dist, dmore) => LengthOk(lit, sym, more) && DistanceOk(dst, dist, dmore)
  }

  ghost function Encode(lit: seq<nat>, dst: seq<nat>, tok: Token): (r: Bits)
    requires TokenOk(lit, dst, tok)
    ensures r != []
  {
    match tok
    case Literal(sym) => Word(lit, sym)
    case Copy(sym, more, dist, dmore) => Word(lit, sym) + more + (Word(dst, dist) + dmore)
  }

  ghost predicate TokensOk(lit: seq<nat>, dst: seq<nat>, toks: seq<Token>) {
    forall i :: 0 <= i < |toks| ==> TokenOk(lit, dst, toks[i])
  }

  ghost function EncodeAll(lit: seq<nat>, dst: seq<nat>, toks: seq<Token>): Bits
    requires TokensOk(lit, dst, toks)
  {
    if toks == [] then [] else Encode(lit, dst, toks[0]) + EncodeAll(lit, dst, toks[1..])
  }

  lemma {:induction false} EncodeOneMore(lit: seq<nat>, dst: seq<nat>, toks: seq<Token>, tok: Token)
    requires TokensOk(lit, dst, toks) && TokenOk(lit, dst, tok)
    ensures EncodeAll(lit, dst, toks + [tok]) == EncodeAll(lit, dst, toks) + Encode(lit, dst, tok)
  {
    hide Encode, TokenOk;
    if toks == [] {
      assert [tok][1..] == [];
    } else {
      assert (toks + [tok])[1..] == toks[1..] + [tok];
      EncodeOneMore(lit, dst, toks[1..], tok);
    }
  }

  /** The bytes to copy, and how far back they are. */
  ghost function Length(tok: Token): nat
    requires tok.Copy? && 257 <= tok.sym <= 285
  {
    CpLens()[tok.sym - 257] + Lsb(tok.more)
  }

  ghost function Distance(tok: Token): nat
    requires tok.Copy? && tok.dist < 30
  {
    CpDist()[tok.dist] + Lsb(tok.dmore)
  }

  /** What the scanner is given for a token: the byte and distance 0, or the length less 3
      and the distance. */
  ghost function LitOf(lit: seq<nat>, dst: seq<nat>, tok: Token): nat
    requires TokenOk(lit, dst, tok)
  {
    if tok.Literal? then tok.sym else if Length(tok) >= 3 then Length(tok) - 3 else 0
  }

  ghost function DistOf(lit: seq<nat>, dst: seq<nat>, tok: Token): nat
    requires TokenOk(lit, dst, tok)
  {
    if tok.Literal? then 0 else Distance(tok)
  }

  lemma Powers()
    ensures Pow2(0) == 1 && Pow2(1) == 2 && Pow2(2) == 4 && Pow2(3) == 8 && Pow2(4) == 16 && Pow2(5) == 32
    ensures Pow2(6) == 64 && Pow2(7) == 128 && Pow2(8) == 256 && Pow2(9) == 512 && Pow2(10) == 1024
    ensures Pow2(11) == 2048 && Pow2(12) == 4096 && Pow2(13) == 8192
  {
    assert forall n: nat {:trigger Shl(1, n + 1)} :: Shl(1, n + 1) == 2 * Shl(1, n);
    hide Shl;
    assert Shl(1, 0 + 1) == 2 * Shl(1, 0);
  }

  /** The tables partition the lengths 3..258 and the distances 1..32768: each base follows
      the last value of the symbol before (284 could also stand for 258). */
  lemma LengthBases(i: nat)
    requires i < 29
    ensures CpLens()[0] == 3 && CpLens()[i] + Pow2(CpLext()[i]) == if i == 28 then 259 else CpLens()[i + 1] + (if i == 27 then 1 else 0)
  {
    hide Pow2;
    Powers();
  }

  lemma DistanceBases(j: nat)
    requires j < 30
    ensures CpDist()[0] == 1 && CpDist()[j] + Pow2(CpDext()[j]) == if j == 29 then 32769 else CpDist()[j + 1]
  {
    hide Pow2;
    Powers();
  }

  /** Lengths less 3 fit a byte and distances fit 16 bits, so storing them loses nothing. */
  lemma {:induction false} TokenRange(lit: seq<nat>, dst: seq<nat>, tok: Token)
    requires TokenOk(lit, dst, tok)
    ensures LitOf(lit, dst, tok) < 256 && DistOf(lit, dst, tok) <= 32768
    ensures tok.Copy? ==> 3 <= Length(tok) <= 258 && Distance(tok) >= 1
  {
    if tok.Copy? {
      hide Lsb, Coded;
      CopyRange(tok.sym - 257, tok.more, tok.dist, tok.dmore);
    }
  }

  lemma {:induction false} CopyRange(i: nat, more: Bits, j: nat, dmore: Bits)
    requires i < 29 && |more| == CpLext()[i] && j < 30 && |dmore| == CpDext()[j]
    ensures 3 <= CpLens()[i] + Lsb(more) <= 258 && 1 <= CpDist()[j] + Lsb(dmore) <= 32768
  {
    hide Lsb, Pow2;
    LsbBound(more);
    LsbBound(dmore);
    LengthBases(i);
    DistanceBases(j);
    BaseRange(i, j);
    BaseRange(i + 1, j + 1);
  }

  lemma BaseRange(i: nat, j: nat)
    ensures i < 29 ==> 3 <= CpLens()[i] <= 258
    ensures j < 30 ==> 1 <= CpDist()[j] <= 24577
  {
  }

  // ---------- Fetching one symbol ----------

  ghost predicate Starts(lens: seq<nat>, sym: nat, buffer: nat) {
    Coded(lens, sym) && ToBits(buffer, lens[sym]) == Word(lens, sym)
  }

  ghost predicate NoWord(lens: seq<nat>, buffer: nat) {
    forall sym: nat :: !Starts(lens, sym, buffer)
  }

  ghost predicate Invalid(r: Result) {
    r.Found? && r.e == INVALID_CODE
  }

  /** The tables decode the canonical code of the lengths, and report everything else. */
  ghost predicate Decoder(tables: Tables, size: nat, lens: seq<nat>, simple: nat, extras: Extras) {
    && 1 <= size <= BMAX
    && (forall sym: nat, buffer: nat :: Starts(lens, sym, buffer) ==>
          Lookup(tables, 0, size, buffer) == SymbolResult(sym, simple, extras, lens[sym]))
    && (forall buffer: nat :: NoWord(lens, buffer) ==> Invalid(Lookup(tables, 0, size, buffer)))
    && PrefixCode(lens)
  }

  /** The result is that of some symbol, or none. */
  ghost predicate AnySymbol(r: Result, simple: nat, extras: Extras) {
    Invalid(r) || (r.Found? && r.e <= 16 && exists sym: nat :: r == SymbolResult(sym, simple, extras, r.used))
  }

  /** A decoder, except that words of no symbol may decode to some symbol all the same. */
  ghost predicate LooseDecoder(tables: Tables, size: nat, lens: seq<nat>, simple: nat, extras: Extras) {
    && 1 <= size <= BMAX
    && (forall sym: nat, buffer: nat :: Starts(lens, sym, buffer) ==>
          Lookup(tables, 0, size, buffer) == SymbolResult(sym, simple, extras, lens[sym]))
    && (forall buffer: nat :: NoWord(lens, buffer) ==> AnySymbol(Lookup(tables, 0, size, buffer), simple, extras))
    && PrefixCode(lens)
  }

  ghost predicate PrefixCode(lens: seq<nat>) {
    forall a: nat, b: nat :: Coded(lens, a) && Coded(lens, b) && Word(lens, a) <= Word(lens, b) ==> a == b
  }

  ghost function UsedMore(r: Result, n: nat): Result {
    match r
    case Garbage => Garbage
    case Found(e, v, used) => Found(e, v, used + n)
  }

  /** A lookup of the bits `before` is at table t, indexed by s bits, with `unread` left. */
  ghost predicate Walking(tables: Tables, size: nat, before: Bits, t: nat, s: nat, unread: Bits) {
    && |unread| <= |before| && unread == before[|before| - |unread|..]
    && Lookup(tables, t, s, Lsb(unread)) != Garbage
    && Lookup(tables, 0, size, Lsb(before)) == UsedMore(Lookup(tables, t, s, Lsb(unread)), |before| - |unread|)
  }

  lemma WalkStart(tables: Tables, size: nat, before: Bits)
    requires Lookup(tables, 0, size, Lsb(before)) != Garbage
    ensures Walking(tables, size, before, 0, size, before)
  {
    assert before[0..] == before;
  }

  /** The entry that the walk is at. */
  lemma WalkEntry(tables: Tables, size: nat, before: Bits, t: nat, s: nat, unread: Bits)
    requires Walking(tables, size, before, t, s, unread)
    ensures var index := Mask(Lsb(unread), s);
            t < |tables| && index < |tables[t]| && tables[t][index].Huft? && tables[t][index].b <= s
    ensures var r := tables[t][Mask(Lsb(unread), s)];
            if r.e <= 16 then Fetched(tables, size, before, Got, r.e, r.v, unread, r.b)
            else if r.e == INVALID_CODE then Fetched(tables, size, before, NoCode, r.e, r.v, unread, 0)
            else t < r.v < |tables| && r.e - 16 <= BMAX + 1
    ensures |unread| <= BMAX ==> Fetched(tables, size, before, Starved, 0, 0, unread, 0)
  {
    hide Lsb, Mask, Shr;
  }

  lemma WalkOn(tables: Tables, size: nat, before: Bits, t: nat, s: nat, unread: Bits, unread': Bits)
    requires Walking(tables, size, before, t, s, unread)
    requires var r := tables[t][Mask(Lsb(unread), s)];
             r.e > 16 && r.e != INVALID_CODE && r.b <= |unread| && unread' == unread[r.b..] && Lsb(unread') == Shr(Lsb(unread), r.b)
    ensures var r := tables[t][Mask(Lsb(unread), s)];
            Walking(tables, size, before, r.v, r.e - 16, unread')
  {
    hide Lsb, Mask, Shr;
  }

  datatype Fetch = Got | NoCode | Starved

  /** The outcome of a fetch, with the last n bits of `unread` still to be dropped. */
  ghost predicate Fetched(tables: Tables, size: nat, before: Bits, fetch: Fetch, e: nat, v: nat, unread: Bits, n: nat) {
    var r := Lookup(tables, 0, size, Lsb(before));
    && r.Found?
    && match fetch
       case Got => r.e == e <= 16 && r.v == v && (n <= |unread| ==> r.used <= |before| && unread[n..] == before[r.used..])
       case NoCode => r.e == INVALID_CODE
       case Starved => |unread| <= BMAX && |before| <= r.used + BMAX
  }

  /** NEEDBITS and the look into a table. */
  method Entry(reader: Reader, tables: Tables, t: nat, s: nat, ghost size: nat, ghost before: Bits) returns (ok: bool, r: Huft)
    requires reader.Valid() && s <= BMAX + 1 && Walking(tables, size, before, t, s, reader.Unread())
    modifies reader
    ensures reader.Valid() && reader.Unread() == old(reader.Unread())
    ensures !ok ==> Fetched(tables, size, before, Starved, 0, 0, reader.Unread(), 0)
    ensures ok ==> t < |tables| && Mask(Lsb(reader.Unread()), s) < |tables[t]| && r == tables[t][Mask(Lsb(reader.Unread()), s)]
                   && r.Huft? && r.b <= s <= reader.k
  {
    WalkEntry(tables, size, before, t, s, reader.Unread());
    hide Lsb, Mask, Reader.Valid, Reader.Unread, Walking, Fetched;
    r := Unset;
    ok := reader.Need(s);
    if ok {
      r := tables[t][Mask(reader.b, s)];
    }
  }

  /** Fetches a code: enough bits for the next table, again and again.  The bits of the
      last entry are dropped unless it is invalid. */
  method NextCode(reader: Reader, tables: Tables, size: nat) returns (fetch: Fetch, e: nat, v: nat)
    requires reader.Valid() && size <= BMAX + 1
    requires Lookup(tables, 0, size, Lsb(reader.Unread())) != Garbage
    modifies reader
    ensures reader.Valid() && Fetched(tables, size, old(reader.Unread()), fetch, e, v, reader.Unread(), 0)
  {
    hide Lookup, Lsb, Mask, Shr, Fetched, Reader.Valid, Reader.Unread, Starts, NoWord;
    ghost var before := reader.Unread();
    ghost var t: nat, s: nat := 0, size;
    WalkStart(tables, size, before);
    hide Walking;
    var ok, r := Entry(reader, tables, 0, size, size, before);
    while ok && r.e > 16 && r.e != INVALID_CODE
      invariant reader.Valid() && Walking(tables, size, before, t, s, reader.Unread())
      invariant ok ==> t < |tables| && Mask(Lsb(reader.Unread()), s) < |tables[t]| && r == tables[t][Mask(Lsb(reader.Unread()), s)]
                       && r.Huft? && r.b <= reader.k
      invariant !ok ==> Fetched(tables, size, before, Starved, 0, 0, reader.Unread(), 0)
      decreases |tables| - t
    {
      ghost var unread := reader.Unread();
      WalkEntry(tables, size, before, t, s, unread);
      reader.Dump(r.b);
      WalkOn(tables, size, before, t, s, unread, reader.Unread());
      t, s := r.v, r.e - 16;
      ok, r := Entry(reader, tables, r.v, r.e - 16, size, before);
    }
    if !ok {
      return Starved, 0, 0;
    }
    WalkEntry(tables, size, before, t, s, reader.Unread());
    if r.e == INVALID_CODE {
      return NoCode, r.e, r.v;
    }
    ghost var unread := reader.Unread();
    reader.Dump(r.b);
    AfterDrop(tables, size, before, r.e, r.v, unread, r.b);
    return Got, r.e, r.v;
  }

  lemma AfterDrop(tables: Tables, size: nat, before: Bits, e: nat, v: nat, unread: Bits, n: nat)
    requires Fetched(tables, size, before, Got, e, v, unread, n) && n <= |unread|
    ensures Fetched(tables, size, before, Got, e, v, unread[n..], 0)
  {
    assert unread[n..][0..] == unread[n..];
  }

  lemma {:induction false} StartsIsPrefix(lens: seq<nat>, sym: nat, u: Bits)
    requires Coded(lens, sym)
    ensures Word(lens, sym) <= u ==> Starts(lens, sym, Lsb(u))
    ensures Starts(lens, sym, Lsb(u)) && lens[sym] <= |u| ==> Word(lens, sym) <= u
  {
    hide ToBits, Lsb, SlotOf;
    if lens[sym] <= |u| {
      ToBitsOfLsb(u);
      ToBitsSplit(Lsb(u), lens[sym], |u| - lens[sym]);
      assert ToBits(Lsb(u), lens[sym]) == u[..lens[sym]];
    }
  }

  /** No code that the bits start with stands for anything. */
  ghost predicate NoSymbol(lens: seq<nat>, simple: nat, extras: Extras, bits: Bits) {
    forall sym: nat :: Coded(lens, sym) && Word(lens, sym) <= bits ==> Invalid(SymbolResult(sym, simple, extras, lens[sym]))
  }

  /** At most BMAX bits follow any code that the bits start with. */
  ghost predicate FewBitsAfter(lens: seq<nat>, bits: Bits) {
    forall sym: nat :: Coded(lens, sym) && Word(lens, sym) <= bits ==> |bits| <= lens[sym] + BMAX
  }

  /** The symbol of a word that no symbol has. */
  ghost predicate StraySymbol(sym: nat, simple: nat, extras: Extras, e: nat, v: nat) {
    e <= 16 && SymbolResult(sym, simple, extras, 0) == Found(e, v, 0)
  }

  /** The next symbol of the bit stream; stray tells that no symbol has the word there. */
  method NextSymbol(reader: Reader, tables: Tables, size: nat, ghost lens: seq<nat>, ghost simple: nat, ghost extras: Extras)
    returns (fetch: Fetch, e: nat, v: nat, ghost sym: nat, ghost stray: bool)
    requires reader.Valid() && LooseDecoder(tables, size, lens, simple, extras)
    requires forall s: nat :: Coded(lens, s) ==> SymbolResult(s, simple, extras, lens[s]) != Garbage
    modifies reader
    ensures reader.Valid()
    ensures fetch == Got && !stray ==>
              Coded(lens, sym) && old(reader.Unread()) == Word(lens, sym) + reader.Unread()
              && e <= 16 && SymbolResult(sym, simple, extras, lens[sym]) == Found(e, v, lens[sym])
    ensures stray ==> fetch == Got && !Decoder(tables, size, lens, simple, extras)
    ensures stray ==> NoSymbol(lens, simple, extras, old(reader.Unread())) && StraySymbol(sym, simple, extras, e, v)
    ensures fetch == NoCode ==> NoSymbol(lens, simple, extras, old(reader.Unread()))
    ensures fetch == Starved ==> |reader.Unread()| <= BMAX && FewBitsAfter(lens, old(reader.Unread()))
  {
    hide Lookup, Lsb, SymbolResult, Word, Reader.Valid, Reader.Unread, PrefixCode, AnySymbol;
    ghost var before := reader.Unread();
    ghost var r := Lookup(tables, 0, size, Lsb(before));
    forall s: nat | Coded(lens, s)
      ensures Word(lens, s) <= before ==> Starts(lens, s, Lsb(before))
      ensures Starts(lens, s, Lsb(before)) && lens[s] <= |before| ==> Word(lens, s) <= before
      ensures Starts(lens, s, Lsb(before)) ==> r.Found? && r.used == lens[s]
    {
      StartsIsPrefix(lens, s, before);
      ResultUses(s, simple, extras, lens[s]);
    }
    sym := 0;
    stray := NoWord(lens, Lsb(before)) && !Invalid(r);
    if stray {
      sym := StrayIs(r, simple, extras);
    } else if !NoWord(lens, Lsb(before)) {
      sym :| Starts(lens, sym, Lsb(before));
    } else {
      InvalidIs(r, simple, extras);
    }
    hide Starts;
    fetch, e, v := NextCode(reader, tables, size);
    stray := stray && fetch == Got;
    assert reader.Unread()[0..] == reader.Unread();
    assert fetch == Got ==> before == before[..r.used] + before[r.used..];
  }

  lemma StrayIs(r: Result, simple: nat, extras: Extras) returns (sym: nat)
    requires AnySymbol(r, simple, extras) && !Invalid(r)
    ensures r.Found? && StraySymbol(sym, simple, extras, r.e, r.v)
  {
    sym :| r == SymbolResult(sym, simple, extras, r.used);
  }

  lemma InvalidIs(r: Result, simple: nat, extras: Extras)
    requires AnySymbol(r, simple, extras)
    ensures r.Found?
  {
  }

  lemma ResultUses(sym: nat, simple: nat, extras: Extras, used: nat)
    ensures var r := SymbolResult(sym, simple, extras, used); r.Found? ==> r.used == used
  {
  }
}
