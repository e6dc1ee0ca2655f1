/** Decoding the scanner's tokens: linearly into a buffer, and through the circular window,
    which refines it. */
module Window {
  import opened Common

  const WSIZE: nat := 0x80000

  const UINT: nat := 0x1_0000_0000

  // ---------- What tokens stand for ----------

  /** Appends n bytes, each the one dist before the end. */
  function CopyBack(out: seq<Byte>, dist: nat, n: nat): (r: seq<Byte>)
    requires 1 <= dist <= |out|
    ensures |r| == |out| + n && out <= r
    decreases n
  {
    if n == 0 then out else CopyBack(out + [out[|out| - dist]], dist, n - 1)
  }

  /** A distance of 0 marks a literal; otherwise the first value is the length less 3. */
  datatype Token = Token(lit: Byte, dist: nat)

  predicate TokenOk(out: seq<Byte>, tok: Token) { tok.dist <= |out| && tok.dist < 0x10000 }

  function ExpandOne(out: seq<Byte>, tok: Token): (r: seq<Byte>)
    requires TokenOk(out, tok)
    ensures out <= r
  {
    if tok.dist == 0 then out + [tok.lit] else CopyBack(out, tok.dist, tok.lit + 3)
  }

  /** All distances stay within the output so far. */
  predicate TokensOk(out: seq<Byte>, toks: seq<Token>)
    decreases |toks|
  {
    toks != [] ==> TokenOk(out, toks[0]) && TokensOk(ExpandOne(out, toks[0]), toks[1..])
  }

  function Expand(out: seq<Byte>, toks: seq<Token>): (r: seq<Byte>)
    requires TokensOk(out, toks)
    ensures out <= r
    decreases |toks|
  {
    if toks == [] then out else Expand(ExpandOne(out, toks[0]), toks[1..])
  }

  lemma {:induction false} ExpandSnoc(out: seq<Byte>, toks: seq<Token>, i: nat)
    requires TokensOk(out, toks) && i < |toks|
    ensures TokensOk(out, toks[..i]) && TokensOk(out, toks[..i + 1]) && TokenOk(Expand(out, toks[..i]), toks[i])
    ensures Expand(out, toks[..i + 1]) == ExpandOne(Expand(out, toks[..i]), toks[i])
    decreases |toks|
  {
    hide ExpandOne;
    if i == 0 {
      assert toks[..1][1..] == [] && toks[..0] == [];
    } else {
      assert toks[..i][0] == toks[0] && toks[..i + 1][0] == toks[0];
      ExpandSnoc(ExpandOne(out, toks[0]), toks[1..], i - 1);
      assert toks[..i][1..] == toks[1..][..i - 1] && toks[..i + 1][1..] == toks[1..][..i];
    }
  }

  lemma {:induction false} CopyBackSnoc(out: seq<Byte>, dist: nat, n: nat)
    requires 1 <= dist <= |out| && n > 0
    ensures var r := CopyBack(out, dist, n - 1); CopyBack(out, dist, n) == r + [r[|r| - dist]]
    decreases n
  {
    if n > 1 { CopyBackSnoc(out + [out[|out| - dist]], dist, n - 1); }
  }

  lemma {:induction false} CopyBackAdd(out: seq<Byte>, dist: nat, a: nat, b: nat)
    requires 1 <= dist <= |out|
    ensures CopyBack(out, dist, a + b) == CopyBack(CopyBack(out, dist, a), dist, b)
    decreases a
  {
    if a > 0 { CopyBackAdd(out + [out[|out| - dist]], dist, a - 1, b); }
  }

  /** As long as the copy does not reach its own output, it is a block. */
  lemma {:induction false} CopyBackBlock(out: seq<Byte>, dist: nat, n: nat)
    requires 1 <= dist <= |out| && n <= dist
    ensures CopyBack(out, dist, n) == out + out[|out| - dist..|out| - dist + n]
    decreases n
  {
    if n > 0 {
      CopyBackBlock(out, dist, n - 1);
      CopyBackSnoc(out, dist, n);
      assert out[|out| - dist..|out| - dist + n] == out[|out| - dist..|out| - dist + n - 1] + [out[|out| - dist + n - 1]];
    }
  }

  // ---------- The linear decoder ----------

  method CopyLinear(result: array<Byte>, start: nat, dist: nat, len: nat) returns (i: nat)
    requires 1 <= dist <= start && start + len < result.Length
    modifies result
    ensures i == start + len && result[..i] == CopyBack(old(result[..start]), dist, len)
  {
    ghost var out := result[..start];
    i := start;
    var j := 0;
    while j < len
      invariant j <= len && i == start + j && |out| == start
      invariant result[..i] == CopyBack(out, dist, j)
    {
      CopyBackSnoc(out, dist, j + 1);
      ghost var before := result[..i];
      hide CopyBack;
      result[i] := result[i - dist];
      i := i + 1;
      j := j + 1;
      assert result[..i] == before + [before[|before| - dist]];
    }
  }

  lemma ExpandOneIs(out: seq<Byte>, tok: Token)
    requires TokenOk(out, tok)
    ensures tok.dist <= |out|
    ensures ExpandOne(out, tok) == if tok.dist == 0 then out + [tok.lit] else CopyBack(out, tok.dist, tok.lit + 3)
  {
    hide CopyBack;
  }

  /** decodeing: writes the expansion and a final 0, and returns its length. */
  method DecodeLinear(toks: seq<Token>, result: array<Byte>) returns (i: nat)
    requires TokensOk([], toks) && |Expand([], toks)| < result.Length
    modifies result
    ensures i == |Expand([], toks)| && result[..i] == Expand([], toks) && result[i] == 0
  {
    hide CopyBack, ExpandOne;
    i := 0;
    for index := 0 to |toks|
      invariant TokensOk([], toks[..index]) && i < result.Length && result[..i] == Expand([], toks[..index])
    {
      ExpandSnoc([], toks, index);
      ExpandGrows(toks, index + 1);
      ExpandOneIs(result[..i], toks[index]);
      hide Expand, TokensOk;
      if toks[index].dist == 0 {
        ghost var before := result[..i];
        result[i] := toks[index].lit;
        i := i + 1;
        assert result[..i] == before + [toks[index].lit];
      } else {
        i := CopyLinear(result, i, toks[index].dist, toks[index].lit + 3);
      }
    }
    assert toks[..|toks|] == toks;
    ghost var all := result[..i];
    result[i] := 0;
    assert result[..i] == all;
  }

  lemma {:induction false} ExpandGrows(toks: seq<Token>, i: nat)
    requires TokensOk([], toks) && i <= |toks|
    ensures TokensOk([], toks[..i]) && |Expand([], toks[..i])| <= |Expand([], toks)|
    decreases |toks| - i
  {
    if i < |toks| {
      ExpandSnoc([], toks, i);
      ExpandGrows(toks, i + 1);
    } else {
      assert toks[..i] == toks;
    }
  }

  // ---------- The circular window ----------

  /** The output byte that position p of the window holds, if that many have been written. */
  function Held(len: nat, w: nat, p: nat): int {
    if p < w then len - w + p else len - w + p - WSIZE
  }

  /** Every position holds the latest output byte that was written to it. */
  ghost predicate Holds(slide: seq<Byte>, w: nat, out: seq<Byte>) {
    && |slide| == WSIZE && w <= WSIZE && w <= |out|
    && forall p :: 0 <= p < WSIZE && Held(|out|, w, p) >= 0 ==> slide[p] == out[Held(|out|, w, p)]
  }

  /** Writing a byte. */
  lemma HoldsNext(slide: seq<Byte>, w: nat, out: seq<Byte>, b: Byte)
    requires Holds(slide, w, out) && w < WSIZE
    ensures Holds(slide[w := b], w + 1, out + [b])
  {
  }

  /** Going round. */
  lemma HoldsRound(slide: seq<Byte>, out: seq<Byte>)
    requires Holds(slide, WSIZE, out)
    ensures Holds(slide, 0, out)
  {
  }

  lemma HeldBack(slide: seq<Byte>, w: nat, out: seq<Byte>, dist: nat, d: nat)
    requires Holds(slide, w, out) && w < WSIZE && 1 <= dist <= |out| && dist < 0x10000
    requires d == if dist <= w then w - dist else w + WSIZE - dist
    ensures d < WSIZE && slide[d] == out[|out| - dist]
  {
  }

  /** Position of the byte `dist` back. */
  function Source(w: nat, dist: nat): nat
    requires w < WSIZE && dist < 0x10000
  {
    if dist <= w then w - dist else w + WSIZE - dist
  }

  /** A block written at once. */
  lemma HoldsBlock(slide: seq<Byte>, w: nat, out: seq<Byte>, block: seq<Byte>, slide': seq<Byte>)
    requires Holds(slide, w, out) && Spliced(slide, slide', w, block)
    ensures Holds(slide', w + |block|, out + block)
  {
  }

  /** What lies in the window from the source position on, before anything is overwritten. */
  lemma SourceBlock(slide: seq<Byte>, w: nat, out: seq<Byte>, dist: nat, e: nat)
    requires Holds(slide, w, out) && w < WSIZE && 1 <= dist <= |out| && dist < 0x10000
    requires e <= dist && Source(w, dist) + e <= WSIZE
    ensures var d := Source(w, dist); slide[d..d + e] == out[|out| - dist..|out| - dist + e]
  {
  }

  /** The block has been put at a position, and nothing else has changed. */
  ghost predicate Spliced(slide: seq<Byte>, slide': seq<Byte>, w: nat, block: seq<Byte>) {
    && |slide| == |slide'| && w + |block| <= |slide|
    && forall p :: 0 <= p < |slide| ==> slide'[p] == if w <= p < w + |block| then block[p - w] else slide[p]
  }

  /** memcpy, defined as bcopy: all bytes are read before any is written. */
  method BlockCopy(a: array<Byte>, to: nat, from: nat, n: nat)
    requires to + n <= a.Length && from + n <= a.Length
    modifies a
    ensures Spliced(old(a[..]), a[..], to, old(a[from..from + n]))
  {
    forall i | 0 <= i < n {
      a[to + i] := a[from + i];
    }
  }

  lemma WaitingBlock(slide: seq<Byte>, slide': seq<Byte>, from: nat, w: nat, block: seq<Byte>)
    requires from <= w && Spliced(slide, slide', w, block)
    ensures slide'[from..w + |block|] == slide[from..w] + block
  {
  }

  lemma AppendBlock(flushed: seq<Byte>, waiting: seq<Byte>, out: seq<Byte>, start: nat, block: seq<Byte>)
    requires start <= |out| && flushed + waiting == out[start..]
    ensures flushed + (waiting + block) == (out + block)[start..]
  {
  }

  /** Minus in unsigned int. */
  function Minus(a: nat, b: nat): nat
    requires a < UINT && b < UINT
  {
    (a + UINT - b) % UINT
  }

  lemma MinusIs(a: nat, b: nat)
    requires a < UINT && b < UINT
    ensures Minus(a, b) == if a >= b then a - b else a + UINT - b
  {
  }

  class Lz77 {
    const slide: array<Byte>
    var wp: nat
    var cfOut: nat
    var flushed: seq<Byte>
    ghost var out: seq<Byte>
    ghost var start: nat

    constructor ()
      ensures Valid() && out == [] && start == 0 && fresh(slide)
    {
      slide := new Byte[WSIZE];
      wp, cfOut, flushed, out, start := 0, 0, [], [], 0;
    }

    /** The window holds the end of the output; what was flushed and what waits in the window
        are together the output from `start` on. */
    ghost predicate Valid()
      reads this, slide
    {
      && slide.Length == WSIZE && wp < WSIZE && cfOut <= wp
      && Holds(slide[..], wp, out)
      && start <= |out| && flushed + slide[cfOut..wp] == out[start..]
    }

    /** While bytes are written, the position may have reached the end. */
    ghost predicate Writing(w: nat)
      reads this, slide
    {
      && slide.Length == WSIZE && w <= WSIZE && cfOut <= w
      && Holds(slide[..], w, out)
      && start <= |out| && flushed + slide[cfOut..w] == out[start..]
    }

    /** One byte into the window. */
    method Put(w: nat, b: Byte) returns (w': nat)
      requires Writing(w) && w < WSIZE
      modifies slide, `out
      ensures w' == w + 1 && Writing(w') && out == old(out) + [b]
    {
      HoldsNext(slide[..], w, out, b);
      ghost var waiting := slide[cfOut..w];
      ghost var before := slide[..];
      slide[w] := b;
      assert slide[..] == before[w := b];
      out := out + [b];
      w' := w + 1;
      assert slide[cfOut..w'] == waiting + [b];
      assert (flushed + waiting) + [b] == flushed + (waiting + [b]);
      assert out[start..] == out[..|out| - 1][start..] + [b];
      hide Holds;
    }

    /** A full window is flushed from cfOut on, and filled from its start again. */
    method Flush(w: nat) returns (w': nat)
      requires Writing(w)
      modifies `cfOut, `flushed, `wp
      ensures Writing(w') && w' == (if w == WSIZE then 0 else w)
    {
      w' := w;
      if w == WSIZE {
        wp := w;
        HoldsRound(slide[..], out);
        flushed := flushed + slide[cfOut..wp];
        w' := 0;
        cfOut := 0;
      }
    }

    /** The block copy: all bytes are read before any is written. */
    method CopyBlock(w: nat, d: nat, e: nat, ghost dist: nat) returns (w': nat)
      requires Writing(w) && w < WSIZE && w + e <= WSIZE && 1 <= dist <= |out| && dist < 0x10000
      requires d == Source(w, dist) && d + e <= WSIZE && e <= dist
      modifies slide, `out
      ensures w' == w + e && Writing(w') && out == CopyBack(old(out), dist, e)
    {
      hide Holds, CopyBack, Spliced, Source;
      ghost var block, before, waiting := slide[d..d + e], slide[..], slide[cfOut..w];
      assert block == before[d..d + e];
      SourceBlock(before, w, out, dist, e);
      CopyBackBlock(out, dist, e);
      BlockCopy(slide, w, d, e);
      HoldsBlock(before, w, out, block, slide[..]);
      w' := w + e;
      WaitingBlock(before, slide[..], cfOut, w, block);
      AppendBlock(flushed, waiting, out, start, block);
      out := out + block;
    }

    /** The copy byte by byte, which may read what it has just written. */
    method CopyBytes(w: nat, d: nat, e: nat, ghost dist: nat) returns (w': nat)
      requires Writing(w) && w < WSIZE && w + e <= WSIZE && 1 <= dist <= |out| && dist < 0x10000
      requires d == Source(w, dist) && d + e <= WSIZE
      modifies slide, `out
      ensures w' == w + e && Writing(w') && out == CopyBack(old(out), dist, e)
    {
      hide CopyBack, Holds;
      ghost var out0 := out;
      CopyNothing(out, dist);
      w' := w;
      var i: nat := 0;
      while i < e
        invariant i <= e && w' == w + i && Writing(w') && |out| == |out0| + i && out == CopyBack(out0, dist, i)
      {
        SourceMoves(w, dist, i, e);
        HeldBack(slide[..], w', out, dist, d + i);
        CopyBackSnoc(out0, dist, i + 1);
        w' := Put(w', slide[d + i]);
        i := i + 1;
      }
    }

    /** A copy: in pieces that end at the end of the window, for source or target. */
    method CopyToken(w: nat, dist: nat, len: nat) returns (w': nat)
      requires Writing(w) && w < WSIZE && 1 <= dist <= |out| && dist < 0x10000
      modifies slide, this
      ensures Writing(w') && w' < WSIZE && out == CopyBack(old(out), dist, len) && start == old(start)
    {
      hide CopyBack, Writing;
      ghost var out0 := out;
      CopyNothing(out0, dist);
      var n: nat := len;
      w' := w;
      MinusIs(w, dist);
      var d := Minus(w, dist);
      Masked(w, dist);
      while n > 0
        invariant n <= len && Writing(w') && w' < WSIZE && start == old(start)
        invariant out == CopyBack(out0, dist, len - n) && dist <= |out|
        invariant d % WSIZE == Source(w', dist)
      {
        d := d % WSIZE;
        var e := WSIZE - (if d > w' then d else w');
        if e > n {
          e := n;
        }
        n := n - e;
        MinusIs(w', d);
        CopyBackAdd(out0, dist, len - n - e, e);
        PieceMoves(w', dist, e);
        var far := Minus(w', d) >= e;
        if far {
          w' := CopyBlock(w', d, e, dist);
        } else {
          w' := CopyBytes(w', d, e, dist);
        }
        d := d + e;
        w' := Flush(w');
      }
    }

    /** decodelz77 over the tokens not decoded yet. */
    method Decode(toks: seq<Token>)
      requires Valid() && TokensOk(out, toks)
      modifies slide, this
      ensures Valid() && out == Expand(old(out), toks) && start == old(start)
    {
      ghost var out0 := out;
      var w: nat := wp;
      hide Expand, TokensOk, CopyBack, Holds;
      assert toks[..0] == [];
      ExpandNothing(out0);
      for i := 0 to |toks|
        invariant Writing(w) && w < WSIZE && start == old(start)
        invariant TokensOk(out0, toks[..i]) && out == Expand(out0, toks[..i])
      {
        ExpandSnoc(out0, toks, i);
        if toks[i].dist == 0 {
          w := Put(w, toks[i].lit);
          w := Flush(w);
        } else {
          w := CopyToken(w, toks[i].dist, toks[i].lit + 3);
        }
      }
      assert toks[..|toks|] == toks;
      wp := w;
    }
  }

  lemma ExpandNothing(out: seq<Byte>)
    ensures TokensOk(out, []) && Expand(out, []) == out
  {
  }

  lemma CopyNothing(out: seq<Byte>, dist: nat)
    requires 1 <= dist <= |out|
    ensures CopyBack(out, dist, 0) == out
  {
  }

  lemma SourceMoves(w: nat, dist: nat, i: nat, e: nat)
    requires w < WSIZE && dist < 0x10000 && i < e && w + e <= WSIZE && Source(w, dist) + e <= WSIZE
    ensures Source(w + i, dist) == Source(w, dist) + i
  {
  }

  lemma Masked(w: nat, dist: nat)
    requires w < WSIZE && dist < 0x10000
    ensures Minus(w, dist) % WSIZE == Source(w, dist)
  {
    if dist > w {
      assert Minus(w, dist) == (w + WSIZE - dist) + 8191 * WSIZE;
    }
  }

  /** A piece fits, a far piece does not reach its own output, and the source moves along. */
  lemma PieceMoves(w: nat, dist: nat, e: nat)
    requires w < WSIZE && 1 <= dist < 0x10000
    requires var d := Source(w, dist); e <= WSIZE - (if d > w then d else w)
    ensures var d := Source(w, dist);
            d + e <= WSIZE && w + e <= WSIZE && (Minus(w, d) >= e ==> e <= dist)
            && (d + e) % WSIZE == Source(if w + e == WSIZE then 0 else w + e, dist)
  {
    MinusIs(w, Source(w, dist));
  }
}
