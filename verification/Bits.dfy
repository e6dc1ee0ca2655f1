/** Bit strings read from either end.  DEFLATE packs a code into the stream first bit
    first, so a code of k bits that is the number Msb(c) is found as Lsb(c) in the low bits
    of the bit buffer.  Shifts are iterated doubling and halving. */
module Bits {

  type Bits = seq<bool>

  /** v << n. */
  function Shl(v: nat, n: nat): (r: nat)
    ensures r >= v
  {
    if n == 0 then v else 2 * Shl(v, n - 1)
  }

  /** v >> n. */
  function Shr(v: nat, n: nat): nat {
    if n == 0 then v else Shr(v / 2, n - 1)
  }

  /** v & ((1 << n) - 1). */
  function Mask(v: nat, n: nat): nat {
    if n == 0 then 0 else v % 2 + 2 * Mask(v / 2, n - 1)
  }

  function Pow2(n: nat): (r: nat)
    ensures r >= 1
  {
    Shl(1, n)
  }

  function Bit(b: bool): nat { if b then 1 else 0 }

  /** The value with the first bit least significant. */
  function Lsb(c: Bits): nat {
    if c == [] then 0 else Bit(c[0]) + 2 * Lsb(c[1..])
  }

  /** The value with the first bit most significant. */
  function Msb(c: Bits): nat {
    if c == [] then 0 else 2 * Msb(c[..|c| - 1]) + Bit(c[|c| - 1])
  }

  /** The low n bits of v, least significant first: the next n bits of a bit buffer. */
  function ToBits(v: nat, n: nat): (c: Bits)
    ensures |c| == n
  {
    if n == 0 then [] else [v % 2 == 1] + ToBits(v / 2, n - 1)
  }

  /** The number v written with n bits, most significant first: a code of length n. */
  function CodeBits(v: nat, n: nat): (c: Bits)
    ensures |c| == n
  {
    if n == 0 then [] else CodeBits(v / 2, n - 1) + [v % 2 == 1]
  }

  function Zeros(n: nat): (c: Bits)
    ensures |c| == n
  {
    seq(n, i => false)
  }

  // ---------- Shifts ----------

  lemma {:induction false} ShlAdd(v: nat, a: nat, b: nat)
    ensures Shl(v, a + b) == Shl(Shl(v, a), b)
  {
    if b != 0 {
      ShlAdd(v, a, b - 1);
    }
  }

  lemma {:induction false} ShlSum(u: nat, v: nat, n: nat)
    ensures Shl(u + v, n) == Shl(u, n) + Shl(v, n)
  {
    if n != 0 {
      ShlSum(u, v, n - 1);
    }
  }

  lemma {:induction false} ShlOrder(u: nat, v: nat, n: nat)
    ensures u < v <==> Shl(u, n) < Shl(v, n)
    ensures u == v <==> Shl(u, n) == Shl(v, n)
  {
    if n != 0 {
      ShlOrder(u, v, n - 1);
    }
  }

  lemma {:induction false} Pow2Monotone(a: nat, b: nat)
    requires a <= b
    ensures 1 <= Pow2(a) <= Pow2(b)
    ensures a < b ==> 2 * Pow2(a) <= Pow2(b)
    decreases b
  {
    if a < b {
      Pow2Monotone(a, b - 1);
    } else if a != 0 {
      Pow2Monotone(a - 1, a - 1);
    }
  }

  lemma {:induction false} ShrAdd(v: nat, a: nat, b: nat)
    ensures Shr(v, a + b) == Shr(Shr(v, a), b)
  {
    if a != 0 {
      ShrAdd(v / 2, a - 1, b);
    }
  }

  // ---------- Buffer order ----------

  lemma {:induction false} LsbBound(c: Bits)
    ensures Lsb(c) < Pow2(|c|)
  {
    if c != [] {
      LsbBound(c[1..]);
    }
  }

  /** Masking and shifting away the low w bits of a bit buffer. */
  lemma {:induction false} LsbSplit(c: Bits, w: nat)
    requires w <= |c|
    ensures Mask(Lsb(c), w) == Lsb(c[..w])
    ensures Shr(Lsb(c), w) == Lsb(c[w..])
  {
    if w != 0 {
      LsbSplit(c[1..], w - 1);
      assert c[1..][..w - 1] == c[..w][1..] && c[1..][w - 1..] == c[w..];
    } else {
      assert c[0..] == c;
    }
  }

  lemma {:induction false} LsbOfToBits(v: nat, n: nat)
    ensures Lsb(ToBits(v, n)) == Mask(v, n)
  {
    if n != 0 {
      LsbOfToBits(v / 2, n - 1);
      assert ToBits(v, n)[1..] == ToBits(v / 2, n - 1);
    }
  }

  lemma {:induction false} ToBitsOfLsb(c: Bits)
    ensures ToBits(Lsb(c), |c|) == c
  {
    if c != [] {
      ToBitsOfLsb(c[1..]);
      assert c == [c[0]] + c[1..];
    }
  }

  lemma {:induction false} LsbInjective(c: Bits, d: Bits)
    requires |c| == |d| && Lsb(c) == Lsb(d)
    ensures c == d
  {
    ToBitsOfLsb(c);
    ToBitsOfLsb(d);
  }

  /** Reading p bits and then n more is reading p + n. */
  lemma {:induction false} ToBitsSplit(v: nat, p: nat, n: nat)
    ensures ToBits(v, p + n) == ToBits(v, p) + ToBits(Shr(v, p), n)
  {
    if p != 0 {
      ToBitsSplit(v / 2, p - 1, n);
    }
  }

  lemma {:induction false} LsbSet(c: Bits, p: nat, d: bool)
    requires p < |c|
    ensures Shr(Lsb(c), p) % 2 == Bit(c[p])
    ensures Lsb(c[p := d]) + (if c[p] then Pow2(p) else 0) == Lsb(c) + (if d then Pow2(p) else 0)
  {
    if p != 0 {
      LsbSet(c[1..], p - 1, d);
      assert c[p := d][1..] == c[1..][p - 1 := d];
    } else {
      assert c[p := d][1..] == c[1..];
    }
  }

  /** A small buffer value means that the bits from w on are zero. */
  lemma {:induction false} SmallMeansZeros(c: Bits, w: nat)
    requires w <= |c|
    ensures Lsb(c) < Pow2(w) <==> c[w..] == Zeros(|c| - w)
  {
    if w != 0 {
      SmallMeansZeros(c[1..], w - 1);
      assert c[1..][w - 1..] == c[w..];
    } else {
      ZerosAreZero(|c|);
      assert c[0..] == c;
      if Lsb(c) == 0 {
        LsbInjective(c, Zeros(|c|));
      }
    }
  }

  lemma {:induction false} ZerosAreZero(n: nat)
    ensures Lsb(Zeros(n)) == 0 && Msb(Zeros(n)) == 0
  {
    if n != 0 {
      ZerosAreZero(n - 1);
      assert Zeros(n)[1..] == Zeros(n - 1) && Zeros(n)[..n - 1] == Zeros(n - 1);
    }
  }

  // ---------- Code order ----------

  lemma {:induction false} MsbBound(c: Bits)
    ensures Msb(c) < Pow2(|c|)
  {
    if c != [] {
      MsbBound(c[..|c| - 1]);
    }
  }

  /** A code lies in the dyadic interval of each of its prefixes. */
  lemma {:induction false} MsbInterval(c: Bits, w: nat)
    requires w <= |c|
    ensures Shl(Msb(c[..w]), |c| - w) <= Msb(c) < Shl(Msb(c[..w]) + 1, |c| - w)
  {
    if w == |c| {
      assert c[..w] == c;
    } else {
      var front := c[..|c| - 1];
      MsbInterval(front, w);
      assert front[..w] == c[..w];
    }
  }

  lemma {:induction false} MsbOfZeros(c: Bits, w: nat)
    requires w <= |c| && c[w..] == Zeros(|c| - w)
    ensures Msb(c) == Shl(Msb(c[..w]), |c| - w)
  {
    if w == |c| {
      assert c[..w] == c;
    } else {
      var front := c[..|c| - 1];
      assert c[|c| - 1] == c[w..][|c| - 1 - w];
      assert front[w..] == c[w..][..|c| - 1 - w] == Zeros(|c| - 1 - w);
      MsbOfZeros(front, w);
      assert front[..w] == c[..w];
    }
  }

  lemma {:induction false} MsbOfCodeBits(v: nat, n: nat)
    requires v < Pow2(n)
    ensures Msb(CodeBits(v, n)) == v
  {
    if n != 0 {
      MsbOfCodeBits(v / 2, n - 1);
      assert CodeBits(v, n)[..n - 1] == CodeBits(v / 2, n - 1);
    }
  }

  lemma {:induction false} CodeBitsOfMsb(c: Bits)
    ensures CodeBits(Msb(c), |c|) == c
  {
    if c != [] {
      var front, last := c[..|c| - 1], c[|c| - 1];
      CodeBitsOfMsb(front);
      var v := Msb(front);
      assert Msb(c) == 2 * v + Bit(last);
      hide Msb;
      assert (2 * v + Bit(last)) / 2 == v && ((2 * v + Bit(last)) % 2 == 1) == last;
      assert CodeBits(2 * v + Bit(last), |c|) == CodeBits(v, |c| - 1) + [last];
      assert c == front + [last];
    }
  }

  lemma {:induction false} MsbInjective(c: Bits, d: Bits)
    requires |c| == |d| && Msb(c) == Msb(d)
    ensures c == d
  {
    CodeBitsOfMsb(c);
    CodeBitsOfMsb(d);
  }
}
