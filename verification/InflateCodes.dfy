/** inflate_codes: the token loop, its token buffers, and what its outcome says about the
    bit stream. */
module InflateCodes {
  import opened Bits
  import opened Canonical
  import opened HuffmanTree
  import opened HuffmanMain
  import opened BitReader
  import opened Inflate

  /** How a run of the token loop ends.  BufferFull is the hand-over of LIT_BUFSIZE tokens
      to the scanner; midCopy tells that the distance of the last one is not decoded yet. */
  datatype Outcome = EndOfBlock | BadCode | OutOfInput | TooManyNear | BufferFull(midCopy: bool)

  const MAX_NEAR := 50

  ghost predicate Near(tok: Token) {
    tok.Copy? && tok.dist < 30 && CpDext()[tok.dist] == 0
  }

  /** How many of the last tokens are copies whose distance has no extra bits. */
  ghost function NearCount(toks: seq<Token>): (n: nat)
    ensures n <= |toks|
  {
    if toks == [] || !Near(toks[|toks| - 1]) then 0 else 1 + NearCount(toks[..|toks| - 1])
  }

  ghost predicate FewNear(toks: seq<Token>) {
    forall i :: 0 <= i <= |toks| ==> NearCount(toks[..i]) <= MAX_NEAR
  }

  function LitExtras(): Extras { Extras.Extras(CpLens(), CpLext()) }

  function DistExtras(): Extras { Extras.Extras(CpDist(), CpDext()) }

  /** Neither the end of the block nor a token. */
  ghost predicate NothingValid(lit: seq<nat>, dst: seq<nat>, rest: Bits) {
    && !(Coded(lit, END_OF_BLOCK) && Word(lit, END_OF_BLOCK) <= rest)
    && forall tok :: TokenOk(lit, dst, tok) ==> !(Encode(lit, dst, tok) <= rest)
  }

  /** Whatever comes next, at most BMAX bits follow it. */
  ghost predicate NearlyEmpty(lit: seq<nat>, dst: seq<nat>, rest: Bits) {
    && (Coded(lit, END_OF_BLOCK) && Word(lit, END_OF_BLOCK) <= rest ==> |rest| <= lit[END_OF_BLOCK] + BMAX)
    && forall tok :: TokenOk(lit, dst, tok) && Encode(lit, dst, tok) <= rest ==> |rest| <= |Encode(lit, dst, tok)| + BMAX
  }

  /** A length stands there, value v less 3, and its copy goes on with the bits `left`. */
  ghost predicate PendingLength(lit: seq<nat>, rest: Bits, left: Bits, v: nat) {
    exists sym: nat, more: Bits :: LengthOk(lit, sym, more) && rest == Word(lit, sym) + more + left && v + 3 == CpLens()[sym - 257] + Lsb(more)
  }

  /** What an outcome means: `before` is the bits at the start, toks the tokens decoded,
      rest the bits behind them, left the bits not consumed.  If the run went astray, no
      token stands at rest, and nothing is said about how the run ended. */
  ghost predicate Report(lit: seq<nat>, dst: seq<nat>, before: Bits, room: nat,
                         toks: seq<Token>, outcome: Outcome, rest: Bits, left: Bits, astray: bool) {
    && TokensOk(lit, dst, toks) && before == EncodeAll(lit, dst, toks) + rest
    && (astray || !outcome.BufferFull? ==> |toks| < room)
    && if astray then NothingValid(lit, dst, rest)
       else match outcome
            case EndOfBlock => FewNear(toks) && Coded(lit, END_OF_BLOCK) && rest == Word(lit, END_OF_BLOCK) + left
            case BadCode => NothingValid(lit, dst, rest)
            case OutOfInput => NearlyEmpty(lit, dst, rest)
            case TooManyNear => NearCount(toks) > MAX_NEAR
            case BufferFull(mid) =>
              if mid then |toks| + 1 == room && exists v :: PendingLength(lit, rest, left, v)
              else |toks| == room > 0 && toks[room - 1].Literal? && left == rest
  }

  /** Decoders for the two alphabets, of which loose ones may decode more than they should. */
  ghost predicate Decoders(tl: Tables, bl: nat, td: Tables, bd: nat, lit: seq<nat>, dst: seq<nat>) {
    && |lit| <= 288 && |dst| <= 30
    && LooseDecoder(tl, bl, lit, 257, LitExtras()) && LooseDecoder(td, bd, dst, 0, DistExtras())
  }

  ghost predicate Strict(tl: Tables, bl: nat, td: Tables, bd: nat, lit: seq<nat>, dst: seq<nat>) {
    Decoder(tl, bl, lit, 257, LitExtras()) && Decoder(td, bd, dst, 0, DistExtras())
  }

  // ---------- Values recorded for tokens ----------

  /** Conversion to uch and to ush. */
  function AsByte(v: nat): nat { v % 0x100 }

  function AsShort(v: nat): nat { v % 0x10000 }

  ghost function LitsOf(lit: seq<nat>, dst: seq<nat>, toks: seq<Token>): (r: seq<nat>)
    requires TokensOk(lit, dst, toks)
    ensures |r| == |toks|
  {
    seq(|toks|, i requires 0 <= i < |toks| => LitOf(lit, dst, toks[i]))
  }

  ghost function DistsOf(lit: seq<nat>, dst: seq<nat>, toks: seq<Token>): (r: seq<nat>)
    requires TokensOk(lit, dst, toks)
    ensures |r| == |toks|
  {
    seq(|toks|, i requires 0 <= i < |toks| => DistOf(lit, dst, toks[i]))
  }

  // ---------- Symbols ----------

  /** What a fetched literal/length symbol is. */
  lemma LitSymbol(lit: seq<nat>, sym: nat)
    requires |lit| <= 288 && Coded(lit, sym)
    ensures SymbolResult(sym, 257, LitExtras(), lit[sym]) ==
            if sym < 256 then Found(16, sym, lit[sym])
            else if sym == 256 then Found(15, 256, lit[sym])
            else Found(CpLext()[sym - 257], CpLens()[sym - 257], lit[sym])
    ensures sym >= 257 ==> (CpLext()[sym - 257] <= 5 || CpLext()[sym - 257] == INVALID_CODE) && (sym <= 285 <==> CpLext()[sym - 257] <= 5)
    ensures 257 <= sym <= 285 ==> 3 <= CpLens()[sym - 257] <= 258
  {
  }

  lemma LitSymbolsKnown(lit: seq<nat>)
    requires |lit| <= 288
    ensures forall s: nat :: Coded(lit, s) ==> SymbolResult(s, 257, LitExtras(), lit[s]) != Garbage
  {
    hide SymbolResult, LitExtras;
    forall s: nat | Coded(lit, s)
      ensures SymbolResult(s, 257, LitExtras(), lit[s]) != Garbage
    {
      LitSymbol(lit, s);
    }
  }

  lemma DistSymbol(dst: seq<nat>, sym: nat)
    requires |dst| <= 30 && Coded(dst, sym)
    ensures SymbolResult(sym, 0, DistExtras(), dst[sym]) == Found(CpDext()[sym], CpDist()[sym], dst[sym])
    ensures CpDext()[sym] <= 13 && 1 <= CpDist()[sym] <= 24577
  {
    hide CpDist, CpDext;
    BaseRange(0, sym);
    FewExtraBits(sym);
  }

  /** What a symbol found by going astray can be. */
  lemma StrayLit(sym: nat, e: nat, v: nat)
    requires StraySymbol(sym, 257, LitExtras(), e, v)
    ensures e == 16 || e == 15 || (e <= 5 && v >= 3)
  {
    hide CpLens, CpLext;
    if sym >= 257 { LengthEntries(sym - 257); }
  }

  lemma LengthEntries(i: nat)
    requires i < 31
    ensures CpLext()[i] <= 16 ==> CpLext()[i] <= 5 && CpLens()[i] >= 3
  {
  }

  lemma StrayDist(sym: nat, e: nat, v: nat)
    requires StraySymbol(sym, 0, DistExtras(), e, v)
    ensures e <= 13
  {
    hide CpDist, CpDext;
    FewExtraBits(sym);
  }

  lemma FewExtraBits(sym: nat)
    requires sym < 30
    ensures CpDext()[sym] <= 13
  {
  }

  // ---------- Reading tokens off a bit string ----------

  lemma {:induction false} SameSymbol(lens: seq<nat>, a: nat, b: nat, bits: Bits)
    requires PrefixCode(lens) && Coded(lens, a) && Coded(lens, b)
    requires Word(lens, a) <= bits && Word(lens, b) <= bits
    ensures a == b
  {
    Comparable(Word(lens, a), Word(lens, b), bits);
  }

  lemma StartsWithSymbol(lit: seq<nat>, dst: seq<nat>, tok: Token, bits: Bits)
    requires TokenOk(lit, dst, tok) && Encode(lit, dst, tok) <= bits
    ensures Word(lit, tok.sym) <= bits && tok.sym != END_OF_BLOCK
  {
  }

  /** After a symbol that is a literal or the end of the block, nothing else can stand there. */
  lemma {:induction false} OnlySymbol(lit: seq<nat>, dst: seq<nat>, before: Bits, sym: nat, tok: Token)
    requires PrefixCode(lit) && Coded(lit, sym) && Word(lit, sym) <= before
    requires TokenOk(lit, dst, tok) && Encode(lit, dst, tok) <= before
    ensures tok.sym == sym != END_OF_BLOCK
  {
    StartsWithSymbol(lit, dst, tok, before);
    SameSymbol(lit, sym, tok.sym, before);
  }

  /** After a length, the rest must be a distance. */
  lemma {:induction false} OnlyCopy(lit: seq<nat>, dst: seq<nat>, before: Bits, sym: nat, more: Bits, u: Bits, tok: Token)
    requires PrefixCode(lit) && LengthOk(lit, sym, more) && before == Word(lit, sym) + more + u
    requires TokenOk(lit, dst, tok) && Encode(lit, dst, tok) <= before
    ensures tok.Copy? && tok.sym == sym && tok.more == more
    ensures Word(dst, tok.dist) + tok.dmore <= u && Word(dst, tok.dist) <= u
  {
    hide Word, PrefixCode, Coded;
    assert Word(lit, sym) <= before;
    OnlySymbol(lit, dst, before, sym, tok);
    SplitPrefix(Word(lit, sym), more, u, tok.more, Word(dst, tok.dist), tok.dmore, before);
  }

  lemma SplitPrefix(head: Bits, more: Bits, u: Bits, more': Bits, w: Bits, dmore: Bits, before: Bits)
    requires |more| == |more'| && before == head + more + u && head + more' + (w + dmore) <= before
    ensures more' == more && w + dmore <= u && w <= u
  {
    var code := head + more' + (w + dmore);
    assert before[|head|..] == more + u && code[|head|..] == more' + (w + dmore);
    assert code[|head|..] <= before[|head|..];
    assert more' == (more + u)[..|more|];
    assert (more + u)[|more|..] == u && code[|head|..][|more|..] == w + dmore;
    assert w == (w + dmore)[..|w|];
  }

  // ---------- Why a token could not be read ----------

  lemma {:induction false} NoLitCode(lit: seq<nat>, dst: seq<nat>, before: Bits)
    requires |lit| <= 288 && NoSymbol(lit, 257, LitExtras(), before)
    ensures NothingValid(lit, dst, before)
  {
    hide Word, SymbolResult, LengthOk, DistanceOk;
    forall tok | TokenOk(lit, dst, tok)
      ensures !(Encode(lit, dst, tok) <= before)
    {
      if Encode(lit, dst, tok) <= before {
        StartsWithSymbol(lit, dst, tok, before);
        TokenSymbol(lit, dst, tok);
        LitSymbol(lit, tok.sym);
      }
    }
    if Coded(lit, END_OF_BLOCK) { LitSymbol(lit, END_OF_BLOCK); }
  }

  lemma TokenSymbol(lit: seq<nat>, dst: seq<nat>, tok: Token)
    requires TokenOk(lit, dst, tok)
    ensures Coded(lit, tok.sym) && tok.sym <= 285 && tok.sym != END_OF_BLOCK
  {
  }

  lemma {:induction false} NoDistCode(lit: seq<nat>, dst: seq<nat>, before: Bits, sym: nat, more: Bits, u: Bits)
    requires |dst| <= 30 && PrefixCode(lit) && LengthOk(lit, sym, more) && before == Word(lit, sym) + more + u
    requires NoSymbol(dst, 0, DistExtras(), u)
    ensures NothingValid(lit, dst, before)
  {
    hide Word, SymbolResult, PrefixCode, Encode;
    forall tok | TokenOk(lit, dst, tok)
      ensures !(Encode(lit, dst, tok) <= before)
    {
      if Encode(lit, dst, tok) <= before {
        OnlyCopy(lit, dst, before, sym, more, u, tok);
        DistSymbol(dst, tok.dist);
      }
    }
    assert Word(lit, sym) <= before;
    if Coded(lit, END_OF_BLOCK) && Word(lit, END_OF_BLOCK) <= before {
      SameSymbol(lit, sym, END_OF_BLOCK, before);
    }
  }

  lemma {:induction false} ShortLitCode(lit: seq<nat>, dst: seq<nat>, before: Bits)
    requires FewBitsAfter(lit, before)
    ensures NearlyEmpty(lit, dst, before)
  {
    hide Word;
    forall tok | TokenOk(lit, dst, tok) && Encode(lit, dst, tok) <= before
      ensures |before| <= |Encode(lit, dst, tok)| + BMAX
    {
      StartsWithSymbol(lit, dst, tok, before);
      assert |Encode(lit, dst, tok)| >= lit[tok.sym];
    }
  }

  /** The extra bits of a length are missing. */
  lemma {:induction false} ShortLength(lit: seq<nat>, dst: seq<nat>, before: Bits, sym: nat, u: Bits)
    requires PrefixCode(lit) && Coded(lit, sym) && 257 <= sym <= 285 && before == Word(lit, sym) + u
    requires |u| < CpLext()[sym - 257]
    ensures NearlyEmpty(lit, dst, before)
  {
    hide PrefixCode, Word;
    assert Word(lit, sym) <= before;
    if Coded(lit, END_OF_BLOCK) && Word(lit, END_OF_BLOCK) <= before {
      SameSymbol(lit, sym, END_OF_BLOCK, before);
    }
    forall tok | TokenOk(lit, dst, tok) && Encode(lit, dst, tok) <= before
      ensures |before| <= |Encode(lit, dst, tok)| + BMAX
    {
      OnlySymbol(lit, dst, before, sym, tok);
    }
  }

  ghost predicate FewBitsAfterDistance(dst: seq<nat>, bits: Bits) {
    forall d: nat :: Coded(dst, d) && d < 30 && Word(dst, d) <= bits ==> |bits| <= dst[d] + CpDext()[d] + BMAX
  }

  lemma FewBitsAfterAny(dst: seq<nat>, bits: Bits)
    ensures FewBitsAfter(dst, bits) ==> FewBitsAfterDistance(dst, bits)
  {
  }

  /** The distance, or its extra bits, are missing: every code there is close to the end. */
  lemma {:induction false} ShortDistance(lit: seq<nat>, dst: seq<nat>, before: Bits, sym: nat, more: Bits, u: Bits)
    requires PrefixCode(lit) && LengthOk(lit, sym, more) && before == Word(lit, sym) + more + u
    requires FewBitsAfterDistance(dst, u)
    ensures NearlyEmpty(lit, dst, before)
  {
    hide PrefixCode, Word;
    assert Word(lit, sym) <= before;
    if Coded(lit, END_OF_BLOCK) && Word(lit, END_OF_BLOCK) <= before {
      SameSymbol(lit, sym, END_OF_BLOCK, before);
    }
    forall tok | TokenOk(lit, dst, tok) && Encode(lit, dst, tok) <= before
      ensures |before| <= |Encode(lit, dst, tok)| + BMAX
    {
      OnlyCopy(lit, dst, before, sym, more, u, tok);
    }
  }

  // ---------- The loop ----------

  datatype Step = TokenDone | BlockDone | Unusable | Short | MidCopy

  function EndOf(step: Step): Outcome
    requires step != TokenDone
  {
    if step == BlockDone then EndOfBlock
    else if step == Unusable then BadCode
    else if step == Short then OutOfInput
    else BufferFull(true)
  }

  class Inflater {
    const reader: Reader
    const litterBuf: array<nat>
    const distBuf: array<nat>
    var lit: nat
    var dist: nat

    constructor (reader: Reader)
      requires reader.Valid()
      ensures Valid() && this.reader == reader && lit == 0 && fresh(litterBuf) && fresh(distBuf)
    {
      this.reader := reader;
      litterBuf, distBuf := new nat[LIT_BUFSIZE], new nat[LIT_BUFSIZE];
      lit, dist := 0, 0;
    }

    /** Between tokens, both buffers hold the same number of entries. */
    ghost predicate Valid()
      reads this, reader
    {
      && reader.Valid() && litterBuf != distBuf
      && litterBuf.Length == distBuf.Length == LIT_BUFSIZE && lit == dist < LIT_BUFSIZE
    }

    method PutLiteral(v: nat)
      requires litterBuf != distBuf && litterBuf.Length == distBuf.Length == LIT_BUFSIZE && lit == dist < LIT_BUFSIZE
      modifies this, litterBuf, distBuf
      ensures lit == dist == old(lit) + 1
      ensures litterBuf[..lit] == old(litterBuf[..lit]) + [AsByte(v)] && distBuf[..dist] == old(distBuf[..dist]) + [0]
    {
      litterBuf[lit] := AsByte(v);
      lit := lit + 1;
      distBuf[dist] := 0;
      dist := dist + 1;
    }

    /** Stores the length less 3, as the 8 bits of a 16-bit number. */
    method PutLength(v: nat)
      requires litterBuf.Length == LIT_BUFSIZE && lit < LIT_BUFSIZE && v >= 3
      modifies this`lit, litterBuf
      ensures lit == old(lit) + 1 && litterBuf[..lit] == old(litterBuf[..lit]) + [AsByte(AsShort(v - 3))]
    {
      litterBuf[lit] := AsByte(AsShort(v - 3));
      lit := lit + 1;
    }

    method PutDistance(v: nat)
      requires distBuf.Length == LIT_BUFSIZE && dist < LIT_BUFSIZE
      modifies this`dist, distBuf
      ensures dist == old(dist) + 1 && distBuf[..dist] == old(distBuf[..dist]) + [AsShort(v)]
    {
      distBuf[dist] := AsShort(v);
      dist := dist + 1;
    }

    method TakeLength(e: nat, v: nat) returns (ok: bool, ghost more: Bits)
      requires Valid() && e <= 5 && v >= 3
      modifies this`lit, litterBuf, reader
      ensures reader.Valid()
      ensures ok ==> |more| == e && old(reader.Unread()) == more + reader.Unread()
      ensures ok ==> lit == old(lit) + 1
                     && litterBuf[..lit] == old(litterBuf[..lit]) + [AsByte(AsShort(v + Lsb(more) - 3))]
      ensures !ok ==> |old(reader.Unread())| < e && litterBuf[..old(lit)] == old(litterBuf[..lit])
    {
      hide Lsb, Reader.Unread, Reader.Valid;
      ghost var before := reader.Unread();
      more := [];
      var n;
      ok, n := reader.Take(e);
      if !ok {
        return;
      }
      more := before[..e];
      PutLength(v + n);
    }

    /** One turn of the loop: a token, the end of the block, or a reason to stop.  If the
        turn went astray, only the counters are known. */
    method NextToken(tl: Tables, bl: nat, td: Tables, bd: nat, ghost lits: seq<nat>, ghost dsts: seq<nat>)
      returns (step: Step, e: nat, ghost tok: Token, ghost stray: bool)
      requires Valid() && Decoders(tl, bl, td, bd, lits, dsts)
      modifies this, reader, litterBuf, distBuf
      ensures reader.Valid() && Counted(step, old(lit))
      ensures litterBuf[..old(lit)] == old(litterBuf[..lit]) && distBuf[..old(dist)] == old(distBuf[..dist])
      ensures stray ==> !Strict(tl, bl, td, bd, lits, dsts) && NothingValid(lits, dsts, old(reader.Unread()))
      ensures !stray ==> TurnIs(step, e, tok, lits, dsts, old(reader.Unread()), reader.Unread())
      ensures !stray && step == TokenDone ==> Recorded(lits, dsts, tok, old(lit))
      ensures !stray && step == MidCopy ==> PendingLength(lits, old(reader.Unread()), reader.Unread(), litterBuf[LIT_BUFSIZE - 1])
    {
      hide Lsb, Reader.Unread, Reader.Valid, SymbolResult, Decoder, LooseDecoder, Word, Encode, NothingValid, NearlyEmpty, NoSymbol, FewBitsAfter,
        StraySymbol, CpDist, CpDext, CpLens, CpLext, LitExtras, DistExtras, PendingLength, Length, Distance;
      LitSymbolsKnown(lits);
      DecodesPrefixCode(tl, bl, lits, 257, LitExtras());
      ghost var before := reader.Unread();
      tok := Literal(0);
      var fetch, v;
      ghost var sym;
      fetch, e, v, sym, stray := NextSymbol(reader, tl, bl, lits, 257, LitExtras());
      if fetch == NoCode {
        NoLitCode(lits, dsts, before);
        return Unusable, e, tok, false;
      }
      if fetch == Starved {
        ShortLitCode(lits, dsts, before);
        return Short, e, tok, false;
      }
      if stray {
        StrayLit(sym, e, v);
        NoLitCode(lits, dsts, before);
      } else {
        LitSymbol(lits, sym);
      }
      if e == 16 {
        tok := Literal(sym);
        PutLiteral(v);
        if !stray { EncodeLiteral(lits, dsts, tok); }
        return TokenDone, e, tok, stray;
      }
      if e == 15 {
        return BlockDone, e, tok, stray;
      }
      step, e, tok, stray := NextCopy(e, v, td, bd, lits, dsts, before, sym, stray);
    }

    /** The counters after a turn that began with n entries in both buffers. */
    ghost predicate Counted(step: Step, n: nat)
      reads this
    {
      match step
      case TokenDone => lit == dist == n + 1 <= LIT_BUFSIZE
      case BlockDone => lit == dist == n
      case MidCopy => lit == dist + 1 == n + 1 == LIT_BUFSIZE
      case _ => true
    }

    /** The token's values are the n-th entries. */
    ghost predicate Recorded(lits: seq<nat>, dsts: seq<nat>, tok: Token, n: nat)
      reads this, litterBuf, distBuf
    {
      && TokenOk(lits, dsts, tok) && n < litterBuf.Length && n < distBuf.Length && (tok.Copy? ==> lit < LIT_BUFSIZE)
      && litterBuf[n] == LitOf(lits, dsts, tok) && distBuf[n] == DistOf(lits, dsts, tok)
    }

    /** The rest of a copy, behind its length symbol. */
    method NextCopy(e0: nat, v: nat, td: Tables, bd: nat, ghost lits: seq<nat>, ghost dsts: seq<nat>, ghost before: Bits, ghost sym: nat,
                    ghost stray0: bool)
      returns (step: Step, e: nat, ghost tok: Token, ghost stray: bool)
      requires Valid() && |dsts| <= 30 && LooseDecoder(td, bd, dsts, 0, DistExtras()) && PrefixCode(lits)
      requires e0 <= 5 && v >= 3
      requires if stray0 then NothingValid(lits, dsts, before)
               else Coded(lits, sym) && 257 <= sym <= 285 && e0 == CpLext()[sym - 257] && v == CpLens()[sym - 257]
                    && before == Word(lits, sym) + reader.Unread()
      modifies this, reader, litterBuf, distBuf
      ensures reader.Valid() && Counted(step, old(lit)) && step != BlockDone
      ensures litterBuf[..old(lit)] == old(litterBuf[..lit]) && distBuf[..old(dist)] == old(distBuf[..dist])
      ensures stray ==> (stray0 || !Decoder(td, bd, dsts, 0, DistExtras())) && NothingValid(lits, dsts, before)
      ensures !stray ==> TurnIs(step, e, tok, lits, dsts, before, reader.Unread())
      ensures !stray && step == TokenDone ==> Recorded(lits, dsts, tok, old(lit))
      ensures !stray && step == MidCopy ==> PendingLength(lits, before, reader.Unread(), litterBuf[LIT_BUFSIZE - 1])
    {
      hide Lsb, Reader.Unread, Reader.Valid, Decoder, LooseDecoder, Word, Encode, NothingValid, NearlyEmpty, NoSymbol, PrefixCode, LitOf, DistOf,
        Distance, Length, AsByte, AsShort, CpDist, CpDext, CpLens, CpLext, PendingLength;
      ghost var u := reader.Unread();
      e := e0;
      tok := Literal(0);
      stray := stray0;
      var ok, fetch;
      ghost var more, dsym, dmore, lost;
      ok, more := TakeLength(e0, v);
      if !ok {
        if !stray { ShortLength(lits, dsts, before, sym, u); }
        return Short, e, tok, stray;
      }
      ghost var stored := AsByte(AsShort(v + Lsb(more) - 3));
      assert litterBuf[old(lit)] == stored;
      ghost var u1 := reader.Unread();
      assert !stray ==> before == Word(lits, sym) + more + u1;
      if lit == LIT_BUFSIZE {
        if !stray { Pending(lits, before, sym, more, u1); }
        return MidCopy, e, tok, stray;
      }
      var d;
      fetch, e, d, dsym, dmore, lost := TakeDistance(reader, td, bd, dsts);
      if fetch == NoCode {
        if !stray { NoDistCode(lits, dsts, before, sym, more, u1); }
        return Unusable, e, tok, stray;
      }
      if fetch == Starved {
        if !stray && lost { NoDistCode(lits, dsts, before, sym, more, u1); }
        if !stray && !lost { ShortDistance(lits, dsts, before, sym, more, u1); }
        return Short, e, tok, stray || lost;
      }
      if !stray && lost { NoDistCode(lits, dsts, before, sym, more, u1); }
      stray := stray || lost;
      PutDistance(d);
      if !stray {
        tok := Copy(sym, more, dsym, dmore);
        EncodeCopy(lits, dsts, tok);
        RecordedCopy(lits, dsts, tok);
      }
      step := TokenDone;
    }

    /** The tokens' values follow the entries that the buffers began with. */
    ghost predicate Kept(ls: seq<nat>, ds: seq<nat>, lits: seq<nat>, dsts: seq<nat>, toks: seq<Token>)
      reads litterBuf, distBuf
    {
      && TokensOk(lits, dsts, toks) && |ls| == |ds|
      && |ls| + |toks| <= LIT_BUFSIZE == litterBuf.Length == distBuf.Length
      && litterBuf[..|ls| + |toks|] == ls + LitsOf(lits, dsts, toks) && distBuf[..|ds| + |toks|] == ds + DistsOf(lits, dsts, toks)
    }

    /** A turn of the loop, and what it adds to the tokens read so far: nothing once the run
        has gone astray. */
    method Turn(tl: Tables, bl: nat, td: Tables, bd: nat, ghost lits: seq<nat>, ghost dsts: seq<nat>,
                ghost before: Bits, ghost ls: seq<nat>, ghost ds: seq<nat>, ghost toks0: seq<Token>, ghost rest0: Bits, ghost astray0: bool)
      returns (step: Step, e: nat, ghost toks: seq<Token>, ghost rest: Bits, ghost astray: bool)
      requires Valid() && Decoders(tl, bl, td, bd, lits, dsts) && Kept(ls, ds, lits, dsts, toks0) && |ls| + |toks0| <= lit
      requires ReadSoFar(lits, dsts, before, toks0, rest0, astray0)
      requires !astray0 ==> rest0 == reader.Unread() && |ls| + |toks0| == lit
      modifies this, reader, litterBuf, distBuf
      ensures reader.Valid() && Counted(step, old(lit)) && Kept(ls, ds, lits, dsts, toks) && (step == TokenDone ==> |ls| + |toks| <= lit)
      ensures ReadSoFar(lits, dsts, before, toks, rest, astray)
      ensures astray0 ==> astray
      ensures astray ==> |ls| + |toks| < LIT_BUFSIZE && (astray0 || !Strict(tl, bl, td, bd, lits, dsts))
      ensures !astray && step == TokenDone ==> NewToken(toks0, toks, e, lit == LIT_BUFSIZE) && rest == reader.Unread() && |ls| + |toks| == lit
      ensures !astray && step != TokenDone ==> toks == toks0 && EndIs(step, lits, dsts, rest, reader.Unread())
      ensures !astray && step == MidCopy ==> PendingLength(lits, rest, reader.Unread(), litterBuf[LIT_BUFSIZE - 1])
    {
      hide Lsb, Reader.Unread, Reader.Valid, Decoders, Strict, Word, Encode, NothingValid, NearlyEmpty, PendingLength, EncodeAll, TokenOk, LitOf, DistOf, Near,
        LitsOf, DistsOf, NearCount, FewNear;
      ghost var n := lit;
      ghost var ls1, ds1 := litterBuf[..lit], distBuf[..lit];
      ghost var tok, stray;
      step, e, tok, stray := NextToken(tl, bl, td, bd, lits, dsts);
      assert litterBuf[..|ls| + |toks0|] == ls1[..|ls| + |toks0|] && distBuf[..|ls| + |toks0|] == ds1[..|ls| + |toks0|];
      toks, rest, astray := toks0, rest0, astray0 || stray;
      if !astray && step == TokenDone {
        EncodeOneMore(lits, dsts, toks, tok);
        RecordOneMore(lits, dsts, toks, tok);
        assert before == EncodeAll(lits, dsts, toks + [tok]) + reader.Unread();
        assert litterBuf[..n + 1] == litterBuf[..n] + [LitOf(lits, dsts, tok)];
        assert distBuf[..n + 1] == distBuf[..n] + [DistOf(lits, dsts, tok)];
        toks, rest := toks + [tok], reader.Unread();
      }
    }

    /** The token loop.  lastInChunk: the block ends what the HTTP chunk holds, so whatever
        the bit buffer still has is dropped. */
    method Run(tl: Tables, bl: nat, td: Tables, bd: nat, lastInChunk: bool, ghost lits: seq<nat>, ghost dsts: seq<nat>)
      returns (outcome: Outcome, ghost toks: seq<Token>, ghost rest: Bits, ghost left: Bits, ghost astray: bool)
      requires Valid() && Decoders(tl, bl, td, bd, lits, dsts)
      modifies this, reader, litterBuf, distBuf
      ensures reader.Valid()
      ensures Strict(tl, bl, td, bd, lits, dsts) ==> !astray
      ensures Report(lits, dsts, old(reader.Unread()), LIT_BUFSIZE - old(lit), toks, outcome, rest, left, astray)
      ensures Kept(old(litterBuf[..lit]), old(distBuf[..lit]), lits, dsts, toks)
      ensures outcome == EndOfBlock && !astray ==>
                Valid() && lit == old(lit) + |toks| && reader.Unread() == if lastInChunk then [] else left
      ensures outcome == BufferFull(false) ==> lit == dist == LIT_BUFSIZE
      ensures outcome == BufferFull(true) ==> lit == dist + 1 == LIT_BUFSIZE
      ensures outcome.BufferFull? ==> left == reader.Unread()
      ensures outcome == BufferFull(true) && !astray ==> PendingLength(lits, rest, left, litterBuf[LIT_BUFSIZE - 1])
    {
      hide Lsb, Reader.Unread, Reader.Valid, Decoders, Strict, Word, Encode, NothingValid, NearlyEmpty, PendingLength, EncodeAll, TokenOk, LitOf, DistOf, Near,
        LitsOf, DistsOf, NearCount, FewNear, TokensOk;
      ghost var before := reader.Unread();
      ghost var ls, ds := litterBuf[..lit], distBuf[..lit];
      var near := 0;
      toks, left, astray := [], [], false;
      rest := before;
      NoTokens(lits, dsts);
      assert Kept(ls, ds, lits, dsts, toks);
      while true
        invariant Valid() && Kept(ls, ds, lits, dsts, toks) && |ls| + |toks| <= lit
        invariant ReadSoFar(lits, dsts, before, toks, rest, astray) && (astray ==> !Strict(tl, bl, td, bd, lits, dsts))
        invariant !astray ==> rest == reader.Unread() && |ls| + |toks| == lit && near == NearCount(toks) && FewNear(toks)
        decreases LIT_BUFSIZE - lit
      {
        var step, e;
        step, e, toks, rest, astray := Turn(tl, bl, td, bd, lits, dsts, before, ls, ds, toks, rest, astray);
        left := reader.Unread();
        if step == TokenDone {
          if lit == LIT_BUFSIZE {
            outcome := BufferFull(false);
            break;
          }
          near := if e == 0 then near + 1 else 0;
          if near > MAX_NEAR {
            outcome := TooManyNear;
            break;
          }
        } else {
          outcome := EndOf(step);
          break;
        }
      }
      if outcome == EndOfBlock && lastInChunk {
        reader.DropAll();
      }
    }

    /** What follows when the scanner found nothing in a full batch: both counters start
        over, and a copy that was cut goes on with its distance. */
    method Resume(midCopy: bool, td: Tables, bd: nat, ghost dsts: seq<nat>)
      returns (fetch: Fetch, ghost sym: nat, ghost dmore: Bits, ghost stray: bool)
      requires reader.Valid() && litterBuf != distBuf && litterBuf.Length == distBuf.Length == LIT_BUFSIZE
      requires |dsts| <= 30 && LooseDecoder(td, bd, dsts, 0, DistExtras())
      modifies this, reader, distBuf
      ensures reader.Valid() && lit == 0
      ensures !midCopy ==> fetch == Got && Valid() && reader.Unread() == old(reader.Unread())
      ensures midCopy && fetch == Got ==> dist == lit + 1
      ensures midCopy && fetch == Got && !stray ==>
                DistanceOk(dsts, sym, dmore) && old(reader.Unread()) == Word(dsts, sym) + dmore + reader.Unread()
                && distBuf[0] == CpDist()[sym] + Lsb(dmore)
      ensures midCopy && fetch == NoCode ==> NoSymbol(dsts, 0, DistExtras(), old(reader.Unread()))
      ensures midCopy && fetch == Starved && !stray ==> FewBitsAfterDistance(dsts, old(reader.Unread()))
      ensures stray ==> !Decoder(td, bd, dsts, 0, DistExtras())
    {
      hide Lsb, Reader.Unread, Decoder, LooseDecoder, Word, CpDist, CpDext, NoSymbol, FewBitsAfterDistance;
      lit, dist := 0, 0;
      fetch, sym, dmore, stray := Got, 0, [], false;
      if midCopy {
        var e, d;
        fetch, e, d, sym, dmore, stray := TakeDistance(reader, td, bd, dsts);
        if fetch == Got {
          PutDistance(d);
          if !stray { DistanceFits(dsts, sym, dmore); }
        }
      }
    }

    /** A block that fills the batch, and what follows if the scanner finds nothing in it:
        both buffers are in step again if and only if the last token of the batch is a
        literal.  If it is a copy, the new batch begins with its distance, which is there
        without a length, and the next token's byte or length is stored beside it. */
    method FillAndResume(tl: Tables, bl: nat, td: Tables, bd: nat, lastInChunk: bool, ghost lits: seq<nat>, ghost dsts: seq<nat>,
                         ghost block: seq<Token>, ghost tail: Bits)
      returns (outcome: Outcome, fetch: Fetch, ghost toks: seq<Token>)
      requires Valid() && Decoders(tl, bl, td, bd, lits, dsts) && Strict(tl, bl, td, bd, lits, dsts)
      requires TokensOk(lits, dsts, block) && |block| >= LIT_BUFSIZE - lit && FewNear(block[..LIT_BUFSIZE - lit - 1])
      requires reader.Unread() == EncodeAll(lits, dsts, block) + tail && |tail| > BMAX
      modifies this, reader, litterBuf, distBuf
      ensures var room := LIT_BUFSIZE - old(lit);
              && outcome == BufferFull(block[room - 1].Copy?) && fetch == Got
              && toks == (if block[room - 1].Copy? then block[..room - 1] else block[..room])
              && reader.Valid() && reader.Unread() == EncodeAll(lits, dsts, block[room..]) + tail
              && lit == 0 && dist == (if block[room - 1].Copy? then 1 else 0)
              && (block[room - 1].Copy? ==> distBuf[0] == DistOf(lits, dsts, block[room - 1]))
    {
      hide Lsb, Reader.Unread, Reader.Valid, Report, Decoder, LooseDecoder, Word, Encode, EncodeAll, TokenOk, FewNear, DistOf, NoSymbol,
        FewBitsAfterDistance, DistanceOk, Kept;
      ghost var before, room := reader.Unread(), LIT_BUFSIZE - lit;
      ghost var rest, left, astray, sym, dmore, stray;
      DecodesPrefixCode(tl, bl, lits, 257, LitExtras());
      DecodesPrefixCode(td, bd, dsts, 0, DistExtras());
      outcome, toks, rest, left, astray := Run(tl, bl, td, bd, lastInChunk, lits, dsts);
      WholeIffLiteral(lits, dsts, before, room, toks, outcome, rest, left, astray, block, tail);
      LeftBehind(lits, dsts, before, room, toks, outcome, rest, left, block, tail);
      fetch, sym, dmore, stray := Resume(outcome.BufferFull? && outcome.midCopy, td, bd, dsts);
      if block[room - 1].Copy? {
        DistanceThere(lits, dsts, block[room - 1], left, EncodeAll(lits, dsts, block[room..]) + tail, sym, dmore, reader.Unread());
      }
    }
  }

  /** The tokens read so far, and the bits behind them. */
  ghost predicate ReadSoFar(lits: seq<nat>, dsts: seq<nat>, before: Bits, toks: seq<Token>, rest: Bits, astray: bool) {
    TokensOk(lits, dsts, toks) && before == EncodeAll(lits, dsts, toks) + rest && (astray ==> NothingValid(lits, dsts, rest))
  }

  /** One more token, whose count of near copies in a row tells e; the last one a batch has
      room for is a literal. */
  ghost predicate NewToken(toks0: seq<Token>, toks: seq<Token>, e: nat, full: bool) {
    && |toks| == |toks0| + 1 && (full ==> toks[|toks0|].Literal?)
    && NearCount(toks) == (if e == 0 then NearCount(toks0) + 1 else 0)
    && (FewNear(toks0) && NearCount(toks) <= MAX_NEAR ==> FewNear(toks))
  }

  /** Why a turn brought no token. */
  ghost predicate EndIs(step: Step, lits: seq<nat>, dsts: seq<nat>, rest: Bits, after: Bits) {
    match step
    case TokenDone => false
    case BlockDone => Coded(lits, END_OF_BLOCK) && rest == Word(lits, END_OF_BLOCK) + after
    case Unusable => NothingValid(lits, dsts, rest)
    case Short => NearlyEmpty(lits, dsts, rest)
    case MidCopy => true
  }

  /** What a turn of the loop says about the bits, unless it went astray. */
  ghost predicate TurnIs(step: Step, e: nat, tok: Token, lits: seq<nat>, dsts: seq<nat>, before: Bits, after: Bits) {
    match step
    case TokenDone => TokenOk(lits, dsts, tok) && before == Encode(lits, dsts, tok) + after && (Near(tok) <==> e == 0)
    case _ => EndIs(step, lits, dsts, before, after)
  }

  lemma Pending(lits: seq<nat>, before: Bits, sym: nat, more: Bits, left: Bits)
    requires LengthOk(lits, sym, more) && before == Word(lits, sym) + more + left
    ensures var v := CpLens()[sym - 257] + Lsb(more);
            v >= 3 && PendingLength(lits, before, left, v - 3) && AsByte(AsShort(v - 3)) == v - 3
  {
    hide Lsb, Word;
    CopyRange(sym - 257, more, 0, []);
  }

  lemma DistanceFits(dst: seq<nat>, sym: nat, dmore: Bits)
    requires DistanceOk(dst, sym, dmore)
    ensures AsShort(CpDist()[sym] + Lsb(dmore)) == CpDist()[sym] + Lsb(dmore)
  {
    hide Lsb, CpDist;
    CopyRange(0, [], sym, dmore);
  }

  lemma NoTokens(lit: seq<nat>, dst: seq<nat>)
    ensures EncodeAll(lit, dst, []) == [] && NearCount([]) == 0 && FewNear([])
    ensures TokensOk(lit, dst, []) && LitsOf(lit, dst, []) == [] && DistsOf(lit, dst, []) == []
  {
    assert forall toks: seq<Token> :: toks[..0] == [];
  }

  lemma RecordOneMore(lit: seq<nat>, dst: seq<nat>, toks: seq<Token>, tok: Token)
    requires TokensOk(lit, dst, toks) && TokenOk(lit, dst, tok)
    ensures LitsOf(lit, dst, toks + [tok]) == LitsOf(lit, dst, toks) + [LitOf(lit, dst, tok)]
    ensures DistsOf(lit, dst, toks + [tok]) == DistsOf(lit, dst, toks) + [DistOf(lit, dst, tok)]
    ensures NearCount(toks + [tok]) == if Near(tok) then NearCount(toks) + 1 else 0
    ensures FewNear(toks) && NearCount(toks + [tok]) <= MAX_NEAR ==> FewNear(toks + [tok])
  {
    hide TokenOk, LitOf, DistOf;
    assert (toks + [tok])[..|toks|] == toks;
    forall i | 0 <= i <= |toks|
      ensures (toks + [tok])[..i] == toks[..i]
    {
    }
    assert (toks + [tok])[..|toks| + 1] == toks + [tok];
  }

  /** The stored values of a copy, truncated as they are, are the right ones. */
  lemma RecordedCopy(lit: seq<nat>, dst: seq<nat>, tok: Token)
    requires TokenOk(lit, dst, tok) && tok.Copy?
    ensures var v := CpLens()[tok.sym - 257]; v + Lsb(tok.more) >= 3 && AsByte(AsShort(v + Lsb(tok.more) - 3)) == LitOf(lit, dst, tok)
    ensures AsShort(CpDist()[tok.dist] + Lsb(tok.dmore)) == DistOf(lit, dst, tok)
  {
    hide Lsb;
    TokenRange(lit, dst, tok);
  }

  lemma EncodeLiteral(lit: seq<nat>, dst: seq<nat>, tok: Token)
    requires TokenOk(lit, dst, tok) && tok.Literal?
    ensures Encode(lit, dst, tok) == Word(lit, tok.sym)
  {
  }

  lemma EncodeCopy(lit: seq<nat>, dst: seq<nat>, tok: Token)
    requires TokenOk(lit, dst, tok) && tok.Copy?
    ensures Encode(lit, dst, tok) == Word(lit, tok.sym) + tok.more + (Word(dst, tok.dist) + tok.dmore)
  {
  }

  lemma DecodesPrefixCode(tables: Tables, size: nat, lens: seq<nat>, simple: nat, extras: Extras)
    requires LooseDecoder(tables, size, lens, simple, extras)
    ensures PrefixCode(lens)
  {
  }

  lemma StrictIsLoose(tables: Tables, size: nat, lens: seq<nat>, simple: nat, extras: Extras)
    requires Decoder(tables, size, lens, simple, extras)
    ensures LooseDecoder(tables, size, lens, simple, extras)
  {
    hide Lookup, PrefixCode;
  }

  /** The distance of a copy. */
  method TakeDistance(reader: Reader, td: Tables, bd: nat, ghost dst: seq<nat>)
    returns (fetch: Fetch, e: nat, d: nat, ghost sym: nat, ghost dmore: Bits, ghost stray: bool)
    requires reader.Valid() && |dst| <= 30 && LooseDecoder(td, bd, dst, 0, DistExtras())
    modifies reader
    ensures reader.Valid()
    ensures fetch == Got && !stray ==>
              DistanceOk(dst, sym, dmore) && e == CpDext()[sym] && d == CpDist()[sym] + Lsb(dmore)
              && old(reader.Unread()) == Word(dst, sym) + dmore + reader.Unread()
    ensures fetch == NoCode || stray ==> NoSymbol(dst, 0, DistExtras(), old(reader.Unread()))
    ensures fetch == Starved && !stray ==> FewBitsAfterDistance(dst, old(reader.Unread()))
    ensures stray ==> !Decoder(td, bd, dst, 0, DistExtras())
  {
    hide Lsb, Reader.Unread, Reader.Valid, SymbolResult, Decoder, LooseDecoder, Word, PrefixCode, CpDist, CpDext, CpLens, CpLext,
      FewBitsAfter, FewBitsAfterDistance, NoSymbol, DistExtras, StraySymbol;
    forall s: nat | Coded(dst, s)
      ensures SymbolResult(s, 0, DistExtras(), dst[s]) == Found(CpDext()[s], CpDist()[s], dst[s]) && CpDext()[s] <= 13
    {
      DistSymbol(dst, s);
    }
    DecodesPrefixCode(td, bd, dst, 0, DistExtras());
    ghost var before := reader.Unread();
    FewBitsAfterAny(dst, before);
    dmore := [];
    var v, ok, n;
    fetch, e, v, sym, stray := NextSymbol(reader, td, bd, dst, 0, DistExtras());
    if fetch != Got {
      return fetch, e, v, sym, dmore, false;
    }
    if stray { StrayDist(sym, e, v); }
    ghost var u := reader.Unread();
    ok, n := reader.Take(e);
    if !ok {
      if !stray { ShortExtra(dst, before, sym, u); }
      return Starved, e, v, sym, dmore, stray;
    }
    d := v + n;
    if !stray {
      dmore := u[..e];
      assert before == Word(dst, sym) + dmore + reader.Unread();
    }
  }

  lemma {:induction false} ShortExtra(dst: seq<nat>, before: Bits, sym: nat, u: Bits)
    requires PrefixCode(dst) && Coded(dst, sym) && sym < 30 && before == Word(dst, sym) + u && |u| < CpDext()[sym]
    ensures FewBitsAfterDistance(dst, before)
  {
    hide PrefixCode, Word;
    forall d: nat | Coded(dst, d) && d < 30 && Word(dst, d) <= before
      ensures |before| <= dst[d] + CpDext()[d] + BMAX
    {
      SameSymbol(dst, d, sym, before);
    }
  }

  // ---------- Completeness ----------

  /** A token string starts with one token only. */
  lemma {:induction false} OneToken(lit: seq<nat>, dst: seq<nat>, a: Token, x: Bits, b: Token, y: Bits)
    requires PrefixCode(lit) && PrefixCode(dst) && TokenOk(lit, dst, a) && TokenOk(lit, dst, b)
    requires Encode(lit, dst, a) + x == Encode(lit, dst, b) + y
    ensures a == b && x == y
  {
    hide PrefixCode, Word;
    var before := Encode(lit, dst, a) + x;
    assert Encode(lit, dst, b) <= before;
    StartsWithSymbol(lit, dst, a, before);
    OnlySymbol(lit, dst, before, a.sym, b);
    if a.Copy? {
      OneCopy(lit, dst, a, x, b);
    }
    hide Encode;
    assert x == before[|Encode(lit, dst, a)|..];
    assert y == before[|Encode(lit, dst, b)|..];
  }

  lemma {:induction false} OneCopy(lit: seq<nat>, dst: seq<nat>, a: Token, x: Bits, b: Token)
    requires PrefixCode(lit) && PrefixCode(dst) && TokenOk(lit, dst, a) && TokenOk(lit, dst, b) && a.Copy?
    requires Encode(lit, dst, b) <= Encode(lit, dst, a) + x
    ensures a == b
  {
    var before := Encode(lit, dst, a) + x;
    var w := Word(dst, a.dist);
    var u := w + a.dmore + x;
    EncodeCopy(lit, dst, a);
    hide Encode, PrefixCode, Word;
    Regroup(Word(lit, a.sym), a.more, w, a.dmore, x);
    OnlyCopy(lit, dst, before, a.sym, a.more, u, b);
    assert w <= u;
    SameSymbol(dst, a.dist, b.dist, u);
    SameTail(w, a.dmore, b.dmore, x);
  }

  lemma Regroup(a: Bits, b: Bits, c: Bits, d: Bits, x: Bits)
    ensures a + b + (c + d) + x == a + b + (c + d + x)
  {
  }

  lemma SameTail(w: Bits, a: Bits, b: Bits, x: Bits)
    requires |a| == |b| && w + b <= w + a + x
    ensures a == b
  {
    assert (w + b)[|w|..] == b;
    assert (w + a + x)[|w|..][..|a|] == a;
  }

  /** Of two token strings that the same bits start with, the shorter starts the longer. */
  lemma {:induction false} OneParse(lit: seq<nat>, dst: seq<nat>, a: seq<Token>, x: Bits, b: seq<Token>, y: Bits)
    requires PrefixCode(lit) && PrefixCode(dst) && TokensOk(lit, dst, a) && TokensOk(lit, dst, b)
    requires EncodeAll(lit, dst, a) + x == EncodeAll(lit, dst, b) + y && |a| <= |b|
    ensures a == b[..|a|] && x == EncodeAll(lit, dst, b[|a|..]) + y
  {
    hide PrefixCode, Encode, TokenOk;
    if a == [] {
      assert b[0..] == b;
    } else {
      var x', y' := EncodeAll(lit, dst, a[1..]) + x, EncodeAll(lit, dst, b[1..]) + y;
      assert Encode(lit, dst, a[0]) + x' == EncodeAll(lit, dst, a) + x;
      assert Encode(lit, dst, b[0]) + y' == EncodeAll(lit, dst, b) + y;
      OneToken(lit, dst, a[0], x', b[0], y');
      OneParse(lit, dst, a[1..], x, b[1..], y);
      assert a == [a[0]] + a[1..] && b[..|a|] == [b[0]] + b[1..][..|a| - 1];
      assert b[1..][|a| - 1..] == b[|a|..];
    }
  }

  /** No token can be read where the end of the block is. */
  lemma {:induction false} EndIsNoToken(lit: seq<nat>, dst: seq<nat>, toks: seq<Token>, x: Bits, tail: Bits)
    requires PrefixCode(lit) && TokensOk(lit, dst, toks) && Coded(lit, END_OF_BLOCK)
    requires EncodeAll(lit, dst, toks) + x == Word(lit, END_OF_BLOCK) + tail
    ensures toks == [] && x == Word(lit, END_OF_BLOCK) + tail
  {
    hide PrefixCode, Word;
    if toks != [] {
      var before := Word(lit, END_OF_BLOCK) + tail;
      assert Encode(lit, dst, toks[0]) <= before;
      OnlySymbol(lit, dst, before, END_OF_BLOCK, toks[0]);
    }
  }

  /** Only one outcome fits bits that hold a block: its tokens, then the end of the block,
      and at least BMAX + 1 bits (a gzip trailer has 64).  Only a run of more than MAX_NEAR
      copies without extra distance bits, or LIT_BUFSIZE tokens, can prevent it. */
  lemma {:induction false} BlockIsDecoded(lit: seq<nat>, dst: seq<nat>, before: Bits, room: nat,
                                          toks: seq<Token>, outcome: Outcome, rest: Bits, left: Bits, astray: bool,
                                          block: seq<Token>, tail: Bits)
    requires PrefixCode(lit) && PrefixCode(dst)
    requires Report(lit, dst, before, room, toks, outcome, rest, left, astray)
    requires TokensOk(lit, dst, block) && Coded(lit, END_OF_BLOCK)
    requires before == EncodeAll(lit, dst, block) + (Word(lit, END_OF_BLOCK) + tail) && |tail| > BMAX
    ensures !astray
    ensures outcome == EndOfBlock ==> toks == block && left == tail
    ensures FewNear(block) && |block| < room ==> outcome == EndOfBlock
  {
    hide PrefixCode, Word, Encode, TokenOk;
    var end := Word(lit, END_OF_BLOCK) + tail;
    if |toks| > |block| {
      OneParse(lit, dst, block, end, toks, rest);
      EndIsNoToken(lit, dst, toks[|block|..], rest, tail);
    } else {
      OneParse(lit, dst, toks, rest, block, end);
      var more := block[|toks|..];
      if more == [] {
        assert block == toks;
        AtEnd(lit, dst, rest, tail);
      } else {
        BeforeEnd(lit, dst, rest, more, end, left);
      }
      assert FewNear(block) ==> NearCount(toks) <= MAX_NEAR;
    }
  }

  lemma PendingStarts(lit: seq<nat>, rest: Bits, left: Bits, v: nat) returns (sym: nat)
    requires PendingLength(lit, rest, left, v)
    ensures 257 <= sym <= 285 && Coded(lit, sym) && Word(lit, sym) <= rest
  {
    hide Word;
    var s: nat, more: Bits :| LengthOk(lit, s, more) && rest == Word(lit, s) + more + left && v + 3 == CpLens()[s - 257] + Lsb(more);
    sym := s;
  }

  lemma {:induction false} AtEnd(lit: seq<nat>, dst: seq<nat>, rest: Bits, tail: Bits)
    requires PrefixCode(lit) && Coded(lit, END_OF_BLOCK) && rest == Word(lit, END_OF_BLOCK) + tail && |tail| > BMAX
    ensures !NothingValid(lit, dst, rest) && !NearlyEmpty(lit, dst, rest) && forall left, v :: !PendingLength(lit, rest, left, v)
    ensures forall left :: rest == Word(lit, END_OF_BLOCK) + left ==> left == tail
  {
    hide PrefixCode, Word;
    assert Word(lit, END_OF_BLOCK) <= rest;
    forall left, v
      ensures !PendingLength(lit, rest, left, v)
    {
      if PendingLength(lit, rest, left, v) {
        var sym: nat := PendingStarts(lit, rest, left, v);
        SameSymbol(lit, sym, END_OF_BLOCK, rest);
      }
    }
    assert rest[lit[END_OF_BLOCK]..] == tail;
  }

  lemma {:induction false} BeforeEnd(lit: seq<nat>, dst: seq<nat>, rest: Bits, more: seq<Token>, end: Bits, left: Bits)
    requires PrefixCode(lit) && TokensOk(lit, dst, more) && more != []
    requires rest == EncodeAll(lit, dst, more) + end && |end| > BMAX
    ensures !NothingValid(lit, dst, rest) && !NearlyEmpty(lit, dst, rest)
    ensures Coded(lit, END_OF_BLOCK) ==> rest != Word(lit, END_OF_BLOCK) + left
  {
    hide PrefixCode, Word, Encode, TokenOk;
    assert Encode(lit, dst, more[0]) <= rest;
    assert |rest| > |Encode(lit, dst, more[0])| + BMAX;
    if Coded(lit, END_OF_BLOCK) && rest == Word(lit, END_OF_BLOCK) + left {
      EndIsNoToken(lit, dst, more, end, left);
    }
  }

  // ---------- Full batches ----------

  /** A block with at least as many tokens as there is room for fills the batch, and whether
      the batch is whole depends on its last token alone: if that is a literal, all values of
      all its tokens are handed over; if it is a copy, its distance is not. */
  lemma {:induction false} WholeIffLiteral(lit: seq<nat>, dst: seq<nat>, before: Bits, room: nat,
                                           toks: seq<Token>, outcome: Outcome, rest: Bits, left: Bits, astray: bool,
                                           block: seq<Token>, tail: Bits)
    requires PrefixCode(lit) && PrefixCode(dst)
    requires Report(lit, dst, before, room, toks, outcome, rest, left, astray)
    requires TokensOk(lit, dst, block) && |block| >= room > 0 && FewNear(block[..room - 1])
    requires before == EncodeAll(lit, dst, block) + tail && |tail| > BMAX
    ensures outcome == BufferFull(block[room - 1].Copy?) && !astray
    ensures toks == if block[room - 1].Copy? then block[..room - 1] else block[..room]
  {
    hide PrefixCode, Word, Encode, TokenOk, EncodeAll, FewNear, NearCount, NothingValid, NearlyEmpty;
    OneParse(lit, dst, toks, rest, block, tail);
    if |toks| < |block| {
      BeforeEnd(lit, dst, rest, block[|toks|..], tail, left);
    }
    if |toks| < room {
      PrefixFewNear(block, |toks|, room - 1);
      CopyIsPending(lit, dst, rest, left, block[|toks|..], tail);
      assert block[|toks|..][0] == block[|toks|];
    }
  }

  lemma PrefixFewNear(block: seq<Token>, n: nat, m: nat)
    requires n <= m <= |block| && FewNear(block[..m])
    ensures NearCount(block[..n]) <= MAX_NEAR
  {
    hide NearCount;
    assert block[..m][..n] == block[..n];
  }

  /** Where a length is pending, the next token is a copy. */
  lemma {:induction false} CopyIsPending(lit: seq<nat>, dst: seq<nat>, rest: Bits, left: Bits, more: seq<Token>, tail: Bits)
    requires PrefixCode(lit) && TokensOk(lit, dst, more) && more != [] && rest == EncodeAll(lit, dst, more) + tail
    ensures (exists v :: PendingLength(lit, rest, left, v)) ==> more[0].Copy?
  {
    hide PrefixCode, Word, Encode, PendingLength;
    if v :| PendingLength(lit, rest, left, v) {
      var sym := PendingStarts(lit, rest, left, v);
      assert Encode(lit, dst, more[0]) <= rest;
      OnlySymbol(lit, dst, rest, sym, more[0]);
    }
  }

  /** What a full batch leaves in the bits: the distance of a copy that was cut, then the
      rest of the block. */
  lemma {:induction false} LeftBehind(lit: seq<nat>, dst: seq<nat>, before: Bits, room: nat,
                                      toks: seq<Token>, outcome: Outcome, rest: Bits, left: Bits, block: seq<Token>, tail: Bits)
    requires PrefixCode(lit) && PrefixCode(dst)
    requires Report(lit, dst, before, room, toks, outcome, rest, left, false)
    requires TokensOk(lit, dst, block) && |block| >= room > 0 && before == EncodeAll(lit, dst, block) + tail
    requires outcome == BufferFull(block[room - 1].Copy?) && toks == if block[room - 1].Copy? then block[..room - 1] else block[..room]
    ensures var tok, u := block[room - 1], EncodeAll(lit, dst, block[room..]) + tail;
            left == if tok.Copy? then Word(dst, tok.dist) + tok.dmore + u else u
  {
    hide PrefixCode, Word, Encode, TokenOk, FewNear, PendingLength;
    OneParse(lit, dst, toks, rest, block, tail);
    var tok := block[room - 1];
    if tok.Copy? {
      var more := block[room - 1..];
      var u := EncodeAll(lit, dst, block[room..]) + tail;
      assert more[0] == tok && more[1..] == block[room..];
      assert rest == Encode(lit, dst, tok) + u;
      var v :| PendingLength(lit, rest, left, v);
      BehindLength(lit, dst, rest, left, v, tok, u);
    }
  }

  /** Behind the length that is pending comes the distance of the copy. */
  lemma {:induction false} BehindLength(lit: seq<nat>, dst: seq<nat>, rest: Bits, left: Bits, v: nat, tok: Token, u: Bits)
    requires PrefixCode(lit) && TokenOk(lit, dst, tok) && tok.Copy? && rest == Encode(lit, dst, tok) + u && PendingLength(lit, rest, left, v)
    ensures left == Word(dst, tok.dist) + tok.dmore + u && v == LitOf(lit, dst, tok)
  {
    hide PrefixCode, Word, Lsb;
    TokenRange(lit, dst, tok);
    var sym: nat, more: Bits :| LengthOk(lit, sym, more) && rest == Word(lit, sym) + more + left && v + 3 == CpLens()[sym - 257] + Lsb(more);
    assert Encode(lit, dst, tok) <= rest;
    OnlyCopy(lit, dst, rest, sym, more, left, tok);
    var w := Word(dst, tok.dist);
    assert rest == Word(lit, sym) + more + (w + tok.dmore) + u;
    SameRest(Word(lit, sym) + more, left, w + tok.dmore, u);
  }

  lemma SameRest(head: Bits, left: Bits, more: Bits, u: Bits)
    requires head + left == head + more + u
    ensures left == more + u
  {
    assert (head + left)[|head|..] == left;
    assert (head + more + u)[|head|..] == more + u;
  }

  /** A distance that stands there is the one that is taken. */
  lemma {:induction false} DistanceThere(lit: seq<nat>, dst: seq<nat>, tok: Token, bits: Bits, u: Bits, sym: nat, dmore: Bits, u': Bits)
    requires PrefixCode(dst) && |dst| <= 30 && TokenOk(lit, dst, tok) && tok.Copy? && bits == Word(dst, tok.dist) + tok.dmore + u && |u| > BMAX
    ensures !NoSymbol(dst, 0, DistExtras(), bits) && !FewBitsAfterDistance(dst, bits)
    ensures DistanceOk(dst, sym, dmore) && bits == Word(dst, sym) + dmore + u' ==>
              sym == tok.dist && dmore == tok.dmore && u' == u && DistOf(lit, dst, tok) == CpDist()[sym] + Lsb(dmore)
  {
    hide PrefixCode, Word, Lsb, SymbolResult, CpDist, CpDext;
    var w := Word(dst, tok.dist);
    assert w <= bits;
    DistSymbol(dst, tok.dist);
    if DistanceOk(dst, sym, dmore) && bits == Word(dst, sym) + dmore + u' {
      assert Word(dst, sym) <= bits;
      SameSymbol(dst, sym, tok.dist, bits);
      assert w + dmore + u' == w + tok.dmore + u;
      assert w + dmore <= bits;
      SameTail(w, dmore, tok.dmore, u);
      SameRest(w + dmore, u', [], u);
    }
  }
}
