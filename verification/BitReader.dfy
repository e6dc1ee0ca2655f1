/** The bit buffer of the decompressor (b, k, inptr): bytes are fetched low bit first. */
module BitReader {
  import opened Common
  import opened Bits

  /** The bit stream that a byte string stands for: section 3.1.1 of RFC 1951. */
  function StreamBits(bytes: seq<Byte>): (r: Bits)
    ensures |r| == 8 * |bytes|
  {
    if bytes == [] then [] else ToBits(bytes[0], 8) + StreamBits(bytes[1..])
  }

  lemma {:induction false} ByteBits(bytes: seq<Byte>, i: nat)
    requires i < |bytes|
    ensures StreamBits(bytes)[8 * i..8 * i + 8] == ToBits(bytes[i], 8)
  {
    if i > 0 {
      ByteBits(bytes[1..], i - 1);
      assert StreamBits(bytes)[8 * i..8 * i + 8] == StreamBits(bytes[1..])[8 * (i - 1)..8 * (i - 1) + 8];
    }
  }

  /** v | w. */
  function Or(v: nat, w: nat): nat {
    if v == 0 && w == 0 then 0 else (if v % 2 == 1 || w % 2 == 1 then 1 else 0) + 2 * Or(v / 2, w / 2)
  }

  /** Putting a byte above the k bits of the buffer. */
  lemma {:induction false} OrAbove(c: Bits, v: nat)
    ensures Or(Lsb(c), Shl(v, |c|)) == Lsb(c) + Shl(v, |c|)
  {
    if c == [] {
      OrZero(v);
    } else {
      OrAbove(c[1..], v);
    }
  }

  lemma {:induction false} OrZero(v: nat)
    ensures Or(0, v) == v
  {
    if v > 0 { OrZero(v / 2); }
  }

  lemma {:induction false} LsbConcat(c: Bits, d: Bits)
    ensures Lsb(c + d) == Lsb(c) + Shl(Lsb(d), |c|)
  {
    if c == [] {
      assert c + d == d;
    } else {
      assert (c + d)[1..] == c[1..] + d;
      LsbConcat(c[1..], d);
    }
  }

  lemma {:induction false} SmallMask(v: nat, n: nat)
    requires v < Pow2(n)
    ensures Mask(v, n) == v
  {
    if n > 0 { SmallMask(v / 2, n - 1); }
  }

  lemma ByteValue(v: Byte)
    ensures Lsb(ToBits(v, 8)) == v
  {
    LsbOfToBits(v, 8);
    assert Pow2(8) == 256 by {
      assert Shl(1, 4) == 16;
      ShlAdd(1, 4, 4);
      assert Shl(16, 4) == 256;
    }
    SmallMask(v, 8);
  }

  /** A fetch puts the next byte of the stream above the bits already there. */
  lemma FetchStep(input: seq<Byte>, inptr: nat, k: nat, b: nat)
    requires inptr < |input| && k <= 8 * inptr && b == Lsb(StreamBits(input)[8 * inptr - k..8 * inptr])
    ensures Or(b, Shl(input[inptr], k)) == Lsb(StreamBits(input)[8 * inptr - k..8 * inptr + 8])
  {
    hide StreamBits, Or, Shl, Lsb, ToBits;
    var bits := StreamBits(input);
    var c := bits[8 * inptr - k..8 * inptr];
    ByteBits(input, inptr);
    ByteValue(input[inptr]);
    OrAbove(c, input[inptr]);
    LsbConcat(c, ToBits(input[inptr], 8));
    assert bits[8 * inptr - k..8 * inptr + 8] == c + bits[8 * inptr..8 * inptr + 8];
  }

  class Reader {
    const input: seq<Byte>
    var inptr: nat
    var b: nat
    var k: nat

    constructor (input: seq<Byte>)
      ensures Valid() && this.input == input && Unread() == StreamBits(input)
    {
      this.input, inptr, b, k := input, 0, 0, 0;
    }

    /** The buffer holds exactly the last k bits fetched; they fit a 32-bit word. */
    ghost predicate Valid()
      reads this
    {
      && inptr <= |input| && k <= 8 * inptr && k < 32
      && b == Lsb(StreamBits(input)[8 * inptr - k..8 * inptr])
    }

    /** The bits not consumed yet, whether fetched or not. */
    ghost function Unread(): Bits
      reads this
      requires Valid()
    {
      StreamBits(input)[8 * inptr - k..]
    }

    /** NEEDBITS: fetches until n bits are there, or the buffer is at its end. */
    method Need(n: nat) returns (ok: bool)
      requires Valid() && n <= 24
      modifies this
      ensures Valid() && Unread() == old(Unread())
      ensures ok <==> n <= |Unread()|
      ensures ok ==> n <= k && Mask(b, n) == Mask(Lsb(Unread()), n)
    {
      hide StreamBits, Or, Shl, Lsb, Mask, Shr;
      ghost var unread := Unread();
      while k < n
        invariant Valid() && Unread() == unread
      {
        if inptr >= |input| {
          return false;
        }
        FetchStep(input, inptr, k, b);
        b := Or(b, Shl(input[inptr], k));
        inptr := inptr + 1;
        k := k + 8;
      }
      ok := true;
      assert StreamBits(input)[8 * inptr - k..8 * inptr] == unread[..k];
      LsbSplit(unread, n);
      LsbSplit(unread[..k], n);
      assert unread[..k][..n] == unread[..n];
    }

    /** DUMPBITS. */
    method Dump(n: nat)
      requires Valid() && n <= k
      modifies this`b, this`k
      ensures Valid() && n <= |old(Unread())| && Unread() == old(Unread())[n..]
      ensures Lsb(Unread()) == Shr(Lsb(old(Unread())), n)
    {
      hide StreamBits, Or, Shl, Lsb, Mask, Shr;
      ghost var c := StreamBits(input)[8 * inptr - k..8 * inptr];
      LsbSplit(c, n);
      LsbSplit(Unread(), n);
      b := Shr(b, n);
      k := k - n;
      assert c[n..] == StreamBits(input)[8 * inptr - k..8 * inptr];
      assert old(Unread())[n..] == StreamBits(input)[8 * inptr - k..];
    }

    /** The value of the next n bits. */
    method Take(n: nat) returns (ok: bool, v: nat)
      requires Valid() && n <= 24
      modifies this
      ensures Valid() && (ok <==> n <= |old(Unread())|)
      ensures ok ==> v == Lsb(old(Unread())[..n]) && Unread() == old(Unread())[n..]
      ensures !ok ==> Unread() == old(Unread())
    {
      ok := Need(n);
      if !ok {
        return false, 0;
      }
      LsbSplit(Unread(), n);
      v := Mask(b, n);
      Dump(n);
    }

    /** At the end of the last block of a chunk, whatever is left in the buffer is dropped. */
    method DropAll()
      requires Valid()
      modifies this
      ensures Valid() && Unread() == []
    {
      inptr, k, b := |input|, 0, 0;
    }
  }
}
