/** The keyed connection hash: the random permutation of the twelve address bytes and the
    bucket that both directions of a connection fall into. */
module Hash {
  import opened Common

  const BYTES := 12
  const MODULUS := 0xff100f

  /** The numbers below n, in order. */
  function Numbers(n: nat): (r: seq<int>)
    ensures |r| == n && forall i :: 0 <= i < n ==> r[i] == i
  {
    seq(n, i => i)
  }

  ghost predicate IsPermutation(s: seq<int>) {
    multiset(s) == multiset(Numbers(BYTES))
  }

  /** Such an array holds each index exactly once. */
  lemma {:induction false} PermutationCovers(s: seq<int>)
    requires IsPermutation(s)
    ensures |s| == BYTES && forall v :: 0 <= v < BYTES ==> v in s
    ensures forall i :: 0 <= i < |s| ==> 0 <= s[i] < BYTES
    ensures forall i, j :: 0 <= i < j < |s| ==> s[i] != s[j]
  {
    var all := Numbers(BYTES);
    assert |s| == |multiset(s)| && |all| == |multiset(all)|;
    forall v | 0 <= v < BYTES
      ensures v in s
    {
      assert all[v] in multiset(all);
      assert v in multiset(s);
    }
    forall i | 0 <= i < |s|
      ensures 0 <= s[i] < BYTES
    {
      assert s[i] in multiset(s);
      assert s[i] in multiset(all);
    }
    forall i, j | 0 <= i < j < |s|
      ensures s[i] != s[j]
    {
      if s[i] == s[j] {
        Twice(s, i, j);
        Once(s[i], BYTES);
      }
    }
  }

  lemma Twice(s: seq<int>, i: nat, j: nat)
    requires i < j < |s| && s[i] == s[j]
    ensures multiset(s)[s[i]] >= 2
  {
    assert s == s[..j] + [s[j]] + s[j + 1..];
    assert s[i] in s[..j];
  }

  lemma {:induction false} Once(v: int, n: nat)
    ensures multiset(Numbers(n))[v] == if 0 <= v < n then 1 else 0
  {
    if n > 0 {
      Once(v, n - 1);
      assert Numbers(n) == Numbers(n - 1) + [n - 1];
    }
  }

  /** s without its element at n. */
  function Without(s: seq<int>, n: nat): seq<int>
    requires n < |s|
  {
    s[..n] + s[n + 1..]
  }

  lemma RemovedOne(s: seq<int>, n: nat)
    requires n < |s|
    ensures multiset(s) == multiset(Without(s, n)) + multiset{s[n]}
  {
    assert s == s[..n] + [s[n]] + s[n + 1..];
  }

  /** Moving one element from `left` to `done` keeps what they hold together. */
  lemma OneMoved(left: seq<int>, done: seq<int>, n: nat, all: multiset<int>)
    requires n < |left| && multiset(left) + multiset(done) == all
    ensures multiset(Without(left, n)) + multiset(done + [left[n]]) == all
  {
    RemovedOne(left, n);
    assert multiset(done + [left[n]]) == multiset(done) + multiset{left[n]};
  }

  // ---------- The hash ----------

  /** The bytes of a connection, permuted and masked. */
  ghost function Keyed(perm: seq<int>, xor: seq<bv8>, data: seq<bv8>): (r: seq<bv8>)
    requires IsPermutation(perm) && |xor| == |data| == BYTES
    ensures |r| == BYTES
  {
    PermutationCovers(perm);
    seq(BYTES, i requires 0 <= i < BYTES => Mixed(data[perm[i]], xor[i]))
  }

  function Mixed(a: bv8, b: bv8): bv8 { a ^ b }

  lemma XorInjective(a: bv8, b: bv8, c: bv8)
    requires Mixed(a, c) == Mixed(b, c)
    ensures a == b
  {
    assert (a ^ c) ^ c == a && (b ^ c) ^ c == b;
  }

  lemma KeyedAt(perm: seq<int>, xor: seq<bv8>, a: seq<bv8>, b: seq<bv8>, v: nat)
    requires IsPermutation(perm) && |xor| == |a| == |b| == BYTES && v < BYTES
    requires Keyed(perm, xor, a) == Keyed(perm, xor, b)
    ensures a[v] == b[v]
  {
    hide IsPermutation, Mixed;
    PermutationCovers(perm);
    assert v in perm;
    var i :| 0 <= i < |perm| && perm[i] == v;
    assert Keyed(perm, xor, a)[i] == Keyed(perm, xor, b)[i];
    XorInjective(a[v], b[v], xor[i]);
  }

  /** No two connections are keyed alike: every byte of the address counts. */
  lemma {:induction false} KeyedInjective(perm: seq<int>, xor: seq<bv8>, a: seq<bv8>, b: seq<bv8>)
    requires IsPermutation(perm) && |xor| == |a| == |b| == BYTES
    requires Keyed(perm, xor, a) == Keyed(perm, xor, b)
    ensures a == b
  {
    hide IsPermutation, Keyed;
    forall v | 0 <= v < BYTES
      ensures a[v] == b[v]
    {
      KeyedAt(perm, xor, a, b, v);
    }
  }

  /** The number that bytes are, first byte most significant. */
  function Number(s: seq<bv8>): nat {
    if s == [] then 0 else 256 * Number(s[..|s| - 1]) + s[|s| - 1] as nat
  }

  /** Reducing early changes nothing. */
  lemma ReduceEarly(r: nat, v: nat, b: nat)
    requires r == v % MODULUS
    ensures (256 * r + b) % MODULUS == (256 * v + b) % MODULUS
  {
    var q := v / MODULUS;
    assert 256 * v + b == (256 * r + b) + MODULUS * (256 * q);
  }

  lemma NumberOfNone(s: seq<bv8>)
    ensures Number(s[..0]) == 0
  {
  }

  /** One more byte, in 32 bits. */
  lemma OneByte(s: seq<bv8>, i: nat, res: nat)
    requires i < |s| && res == Number(s[..i]) % MODULUS
    ensures res * 0x100 + s[i] as nat < 0x1_0000_0000
    ensures (res * 0x100 + s[i] as nat) % MODULUS == Number(s[..i + 1]) % MODULUS
  {
    assert s[..i + 1][..i] == s[..i] && s[..i + 1][i] == s[i];
    ReduceEarly(res, Number(s[..i]), s[i] as nat);
  }

  /** A connection as its packets name it. */
  datatype Tuple4 = Tuple4(saddr: seq<bv8>, source: seq<bv8>, daddr: seq<bv8>, dest: seq<bv8>) {
    predicate Ok() { |saddr| == |daddr| == 4 && |source| == |dest| == 2 }

    function Reversed(): Tuple4 { Tuple4(daddr, dest, saddr, source) }

    function Data(): (r: seq<bv8>)
      requires Ok()
      ensures |r| == BYTES
    {
      saddr + daddr + source + dest
    }
  }

  /** a ^ b, bit by bit. */
  function Xor(a: nat, b: nat): nat {
    if a == 0 && b == 0 then 0 else 2 * Xor(a / 2, b / 2) + (a % 2 + b % 2) % 2
  }

  /** What mkhash computes: the keyed bytes as one long number, modulo a constant. */
  ghost function HashOf(perm: seq<int>, xor: seq<bv8>, addr: Tuple4): (r: nat)
    requires IsPermutation(perm) && |xor| == BYTES && addr.Ok()
    ensures r < MODULUS
  {
    Number(Keyed(perm, xor, addr.Data())) % MODULUS
  }

  lemma FrontWithout(all: seq<int>, k: nat, n: nat, after: seq<int>)
    requires n < k <= |all| == |after| && after[..|all| - 1] == Without(all, n)
    ensures after[..k - 1] == Without(all[..k], n)
  {
    assert after[..k - 1] == after[..|all| - 1][..k - 1];
  }

  lemma FrontOf(all: seq<int>, k: nat, n: nat)
    requires n < k <= |all|
    ensures all[..k][n] == all[n]
  {
  }

  class ConnectionHash {
    const perm: array<int>
    const xor: seq<bv8>

    constructor (random: seq<Byte>, xor: seq<bv8>)
      requires |random| == |xor| == BYTES
      ensures perm.Length == BYTES && fresh(perm) && perm[..] == random && this.xor == xor
    {
      perm := new int[BYTES](i requires 0 <= i < |random| => random[i]);
      this.xor := xor;
    }

    /** Removes p[n] by moving what is behind it, up to the end of the array. */
    static method Remove(p: array<int>, n: nat)
      requires p.Length == BYTES && n < BYTES
      modifies p
      ensures p[..BYTES - 1] == Without(old(p[..]), n)
    {
      for j := 0 to BYTES - 1 - n
        invariant forall i :: 0 <= i < n ==> p[i] == old(p[i])
        invariant forall i :: n <= i < n + j ==> p[i] == old(p[i + 1])
        invariant forall i :: n + j <= i < BYTES ==> p[i] == old(p[i])
      {
        p[n + j] := p[n + j + 1];
      }
    }

    /** Replaces perm[i] by the one of the numbers left in p that it selects. */
    method Choose(p: array<int>, i: nat)
      requires p != perm && p.Length == perm.Length == BYTES && i < BYTES && perm[i] >= 0
      requires multiset(p[..BYTES - i]) + multiset(perm[..i]) == multiset(Numbers(BYTES))
      modifies p, perm
      ensures multiset(p[..BYTES - (i + 1)]) + multiset(perm[..i + 1]) == multiset(Numbers(BYTES))
      ensures perm[i + 1..] == old(perm[i + 1..])
    {
      hide Numbers, Without;
      var n := perm[i] % (BYTES - i);
      ghost var left, done, all, later := p[..BYTES - i], perm[..i], p[..], perm[i + 1..];
      OneMoved(left, done, n, multiset(Numbers(BYTES)));
      FrontOf(all, BYTES - i, n);
      perm[i] := p[n];
      assert perm[..i + 1] == done + [left[n]] && perm[i + 1..] == later;
      Remove(p, n);
      FrontWithout(all, BYTES - i, n, p[..]);
      assert p[..][..BYTES - (i + 1)] == p[..BYTES - (i + 1)];
    }

    /** init_hash: whatever the random bytes were, they become a permutation. */
    method Init()
      requires perm.Length == BYTES && forall i :: 0 <= i < BYTES ==> 0 <= perm[i] < 256
      modifies perm
      ensures IsPermutation(perm[..])
    {
      hide Without;
      var p := new int[BYTES](i => i);
      assert p[..BYTES] == Numbers(BYTES) && perm[..0] == [];
      hide Numbers;
      ghost var random := perm[..];
      var i := 0;
      while i < BYTES
        invariant 0 <= i <= BYTES && perm[i..] == random[i..]
        invariant multiset(p[..BYTES - i]) + multiset(perm[..i]) == multiset(Numbers(BYTES))
      {
        assert perm[i..][0] == random[i];
        Choose(p, i);
        assert perm[i + 1..] == random[i..][1..];
        i := i + 1;
      }
      assert p[..0] == [] && perm[..BYTES] == perm[..];
    }

    ghost predicate Valid()
      reads perm
    {
      perm.Length == BYTES == |xor| && IsPermutation(perm[..])
    }

    /** mkhash: 32 bits are enough for every step. */
    method MakeHash(addr: Tuple4) returns (res: nat)
      requires Valid() && addr.Ok()
      ensures res == HashOf(perm[..], xor, addr)
    {
      hide IsPermutation, Number, Mixed;
      PermutationCovers(perm[..]);
      var data := addr.Data();
      ghost var keyed := Keyed(perm[..], xor, data);
      res := 0;
      var i := 0;
      assert Number(keyed[..0]) == 0 by { NumberOfNone(keyed); }
      while i < BYTES
        invariant 0 <= i <= BYTES && res == Number(keyed[..i]) % MODULUS
      {
        assert perm[..][i] == perm[i];
        var b := Mixed(data[perm[i]], xor[i]);
        assert keyed[i] == b;
        OneByte(keyed, i, res);
        assert res * 0x100 + b as nat < 0x1_0000_0000;
        res := (res * 0x100 + b as nat) % MODULUS;
        i := i + 1;
      }
      assert keyed[..BYTES] == keyed;
    }

    /** mk_hash_index: a bucket of the table, the same for both directions. */
    method Index(addr: Tuple4, size: nat) returns (index: nat)
      requires Valid() && addr.Ok() && 0 < size <= 0x1_0000_0000
      ensures index < size && index == BucketOf(perm[..], xor, addr, size)
    {
      hide IsPermutation;
      var hash1 := MakeHash(addr);
      var hash2 := MakeHash(addr.Reversed());
      index := Xor(hash1 % size, hash2 % size) % size;
    }
  }

  ghost function BucketOf(perm: seq<int>, xor: seq<bv8>, addr: Tuple4, size: nat): nat
    requires IsPermutation(perm) && |xor| == BYTES && addr.Ok() && 0 < size <= 0x1_0000_0000
  {
    Xor(HashOf(perm, xor, addr) % size, HashOf(perm, xor, addr.Reversed()) % size) % size
  }

  lemma BothDirections(perm: seq<int>, xor: seq<bv8>, addr: Tuple4, size: nat)
    requires IsPermutation(perm) && |xor| == BYTES && addr.Ok() && 0 < size <= 0x1_0000_0000
    ensures BucketOf(perm, xor, addr, size) == BucketOf(perm, xor, addr.Reversed(), size)
  {
    hide IsPermutation, HashOf;
    assert addr.Reversed().Reversed() == addr;
    XorCommutes(HashOf(perm, xor, addr) % size, HashOf(perm, xor, addr.Reversed()) % size);
  }

  lemma {:induction false} XorFacts(a: nat)
    ensures Xor(a, 0) == a && Xor(0, a) == a && Xor(a, a) == 0
  {
    if a > 0 { XorFacts(a / 2); }
  }

  lemma {:induction false} XorCommutes(a: nat, b: nat)
    ensures Xor(a, b) == Xor(b, a)
  {
    if a > 0 || b > 0 { XorCommutes(a / 2, b / 2); }
  }

  lemma Twofold(h: nat, size: nat)
    requires size > 0
    ensures (h % size) % size == h % size < size && 0 % size == 0
  {
  }

  /** The bucket is the exclusive or of both directions' hashes: with one of them 0 it is the
      other one, and equal ones cancel. */
  lemma BucketAlone(perm: seq<int>, xor: seq<bv8>, addr: Tuple4, size: nat)
    requires IsPermutation(perm) && |xor| == BYTES && addr.Ok() && 0 < size <= 0x1_0000_0000
    ensures var h, r := HashOf(perm, xor, addr) % size, HashOf(perm, xor, addr.Reversed()) % size;
            var b := BucketOf(perm, xor, addr, size);
            (r == 0 ==> b == h) && (h == 0 ==> b == r) && (h == r ==> b == 0)
  {
    hide IsPermutation, HashOf;
    var a, b := HashOf(perm, xor, addr), HashOf(perm, xor, addr.Reversed());
    Twofold(a, size);
    Twofold(b, size);
    XorFacts(a % size);
    XorFacts(b % size);
    hide Xor;
  }

  function KnownAddress(): Tuple4 { Tuple4([192, 168, 0, 1], [4, 210], [192, 168, 0, 2], [0, 80]) }

  /** Four bytes as a number, behind others. */
  function Word(s: seq<bv8>, n: nat): nat
    requires n + 4 <= |s|
  {
    s[n] as nat * 0x100_0000 + s[n + 1] as nat * 0x1_0000 + s[n + 2] as nat * 0x100 + s[n + 3] as nat
  }

  /** Twelve bytes as a number, written out. */
  lemma TwelveBytes(s: seq<bv8>)
    requires |s| == BYTES
    ensures Number(s) == (Word(s, 0) * 0x1_0000_0000 + Word(s, 4)) * 0x1_0000_0000 + Word(s, 8)
  {
    hide Number, Word;
    FourBytes(s, 0);
    FourBytes(s, 4);
    FourBytes(s, 8);
    NoNumber();
    assert s[..12] == s && s[..0] == [];
  }

  lemma NoNumber()
    ensures Number([]) == 0
  {
  }

  lemma FourBytes(s: seq<bv8>, n: nat)
    requires n + 4 <= |s|
    ensures Number(s[..n + 4]) == Number(s[..n]) * 0x1_0000_0000 + Word(s, n)
  {
    hide Number;
    NextByte(s, n + 1);
    NextByte(s, n + 2);
    NextByte(s, n + 3);
    NextByte(s, n + 4);
  }

  lemma NextByte(s: seq<bv8>, n: nat)
    requires 1 <= n <= |s|
    ensures Number(s[..n]) == 256 * Number(s[..n - 1]) + s[n - 1] as nat
  {
    assert s[..n][..n - 1] == s[..n - 1];
  }

  /** One connection, number for number, without a key: 192.168.0.1:1234 to 192.168.0.2:80. */
  lemma KnownHash()
    ensures IsPermutation(Numbers(BYTES)) && HashOf(Numbers(BYTES), seq(BYTES, i => 0), KnownAddress()) == 13449186
  {
    var key: seq<bv8> := seq(BYTES, i => 0);
    var keyed := Keyed(Numbers(BYTES), key, KnownAddress().Data());
    assert keyed == [192, 168, 0, 1, 192, 168, 0, 2, 4, 210, 0, 80];
    TwelveBytes(keyed);
    hide Number, Keyed;
  }
}
