/** The cyclic redundancy check of gzip, section 8 of RFC 1952, computed from a table of the
    values of single bytes.  The register is 32 bits wide and reflected: its lowest bit is the
    coefficient of the highest power. */
module Crc {
  /** The generator polynomial without its leading term. */
  const POLY: bv32 := 0xedb88320
  const ALL_ONES: bv32 := 0xffff_ffff

  // ---------- Division, bit by bit ----------

  /** One step of the division: the next bit of the message meets the highest coefficient. */
  function TakeBit(c: bv32, bit: bool): bv32 {
    if (c & 1 == 1) != bit then (c >> 1) ^ POLY else c >> 1
  }

  function TakeBits(c: bv32, bits: seq<bool>): bv32
    decreases |bits|
  {
    if bits == [] then c else TakeBits(TakeBit(c, bits[0]), bits[1..])
  }

  /** The low n bits of a byte, lowest first as gzip sends them. */
  function BitsOf(b: bv8, n: nat): seq<bool>
    decreases n
  {
    if n == 0 then [] else [b & 1 == 1] + BitsOf(b >> 1, n - 1)
  }

  function AllBits(s: seq<bv8>): seq<bool> {
    if s == [] then [] else BitsOf(s[0], 8) + AllBits(s[1..])
  }

  /** A step without input. */
  function Shift(c: bv32): bv32 { if c & 1 == 1 then (c >> 1) ^ POLY else c >> 1 }

  function Shift2(c: bv32): bv32 { Shift(Shift(c)) }

  function Shift4(c: bv32): bv32 { Shift2(Shift2(c)) }

  function Shift8(c: bv32): bv32 { Shift4(Shift4(c)) }

  // ---------- The table ----------

  function Row0(): seq<bv32> {
    [0x00000000, 0x77073096, 0xee0e612c, 0x990951ba,
     0x076dc419, 0x706af48f, 0xe963a535, 0x9e6495a3,
     0x0edb8832, 0x79dcb8a4, 0xe0d5e91e, 0x97d2d988,
     0x09b64c2b, 0x7eb17cbd, 0xe7b82d07, 0x90bf1d91]
  }

  function Row1(): seq<bv32> {
    [0x1db71064, 0x6ab020f2, 0xf3b97148, 0x84be41de,
     0x1adad47d, 0x6ddde4eb, 0xf4d4b551, 0x83d385c7,
     0x136c9856, 0x646ba8c0, 0xfd62f97a, 0x8a65c9ec,
     0x14015c4f, 0x63066cd9, 0xfa0f3d63, 0x8d080df5]
  }

  function Row2(): seq<bv32> {
    [0x3b6e20c8, 0x4c69105e, 0xd56041e4, 0xa2677172,
     0x3c03e4d1, 0x4b04d447, 0xd20d85fd, 0xa50ab56b,
     0x35b5a8fa, 0x42b2986c, 0xdbbbc9d6, 0xacbcf940,
     0x32d86ce3, 0x45df5c75, 0xdcd60dcf, 0xabd13d59]
  }

  function Row3(): seq<bv32> {
    [0x26d930ac, 0x51de003a, 0xc8d75180, 0xbfd06116,
     0x21b4f4b5, 0x56b3c423, 0xcfba9599, 0xb8bda50f,
     0x2802b89e, 0x5f058808, 0xc60cd9b2, 0xb10be924,
     0x2f6f7c87, 0x58684c11, 0xc1611dab, 0xb6662d3d]
  }

  function Row4(): seq<bv32> {
    [0x76dc4190, 0x01db7106, 0x98d220bc, 0xefd5102a,
     0x71b18589, 0x06b6b51f, 0x9fbfe4a5, 0xe8b8d433,
     0x7807c9a2, 0x0f00f934, 0x9609a88e, 0xe10e9818,
     0x7f6a0dbb, 0x086d3d2d, 0x91646c97, 0xe6635c01]
  }

  function Row5(): seq<bv32> {
    [0x6b6b51f4, 0x1c6c6162, 0x856530d8, 0xf262004e,
     0x6c0695ed, 0x1b01a57b, 0x8208f4c1, 0xf50fc457,
     0x65b0d9c6, 0x12b7e950, 0x8bbeb8ea, 0xfcb9887c,
     0x62dd1ddf, 0x15da2d49, 0x8cd37cf3, 0xfbd44c65]
  }

  function Row6(): seq<bv32> {
    [0x4db26158, 0x3ab551ce, 0xa3bc0074, 0xd4bb30e2,
     0x4adfa541, 0x3dd895d7, 0xa4d1c46d, 0xd3d6f4fb,
     0x4369e96a, 0x346ed9fc, 0xad678846, 0xda60b8d0,
     0x44042d73, 0x33031de5, 0xaa0a4c5f, 0xdd0d7cc9]
  }

  function Row7(): seq<bv32> {
    [0x5005713c, 0x270241aa, 0xbe0b1010, 0xc90c2086,
     0x5768b525, 0x206f85b3, 0xb966d409, 0xce61e49f,
     0x5edef90e, 0x29d9c998, 0xb0d09822, 0xc7d7a8b4,
     0x59b33d17, 0x2eb40d81, 0xb7bd5c3b, 0xc0ba6cad]
  }

  function Row8(): seq<bv32> {
    [0xedb88320, 0x9abfb3b6, 0x03b6e20c, 0x74b1d29a,
     0xead54739, 0x9dd277af, 0x04db2615, 0x73dc1683,
     0xe3630b12, 0x94643b84, 0x0d6d6a3e, 0x7a6a5aa8,
     0xe40ecf0b, 0x9309ff9d, 0x0a00ae27, 0x7d079eb1]
  }

  function Row9(): seq<bv32> {
    [0xf00f9344, 0x8708a3d2, 0x1e01f268, 0x6906c2fe,
     0xf762575d, 0x806567cb, 0x196c3671, 0x6e6b06e7,
     0xfed41b76, 0x89d32be0, 0x10da7a5a, 0x67dd4acc,
     0xf9b9df6f, 0x8ebeeff9, 0x17b7be43, 0x60b08ed5]
  }

  function Row10(): seq<bv32> {
    [0xd6d6a3e8, 0xa1d1937e, 0x38d8c2c4, 0x4fdff252,
     0xd1bb67f1, 0xa6bc5767, 0x3fb506dd, 0x48b2364b,
     0xd80d2bda, 0xaf0a1b4c, 0x36034af6, 0x41047a60,
     0xdf60efc3, 0xa867df55, 0x316e8eef, 0x4669be79]
  }

  function Row11(): seq<bv32> {
    [0xcb61b38c, 0xbc66831a, 0x256fd2a0, 0x5268e236,
     0xcc0c7795, 0xbb0b4703, 0x220216b9, 0x5505262f,
     0xc5ba3bbe, 0xb2bd0b28, 0x2bb45a92, 0x5cb36a04,
     0xc2d7ffa7, 0xb5d0cf31, 0x2cd99e8b, 0x5bdeae1d]
  }

  function Row12(): seq<bv32> {
    [0x9b64c2b0, 0xec63f226, 0x756aa39c, 0x026d930a,
     0x9c0906a9, 0xeb0e363f, 0x72076785, 0x05005713,
     0x95bf4a82, 0xe2b87a14, 0x7bb12bae, 0x0cb61b38,
     0x92d28e9b, 0xe5d5be0d, 0x7cdcefb7, 0x0bdbdf21]
  }

  function Row13(): seq<bv32> {
    [0x86d3d2d4, 0xf1d4e242, 0x68ddb3f8, 0x1fda836e,
     0x81be16cd, 0xf6b9265b, 0x6fb077e1, 0x18b74777,
     0x88085ae6, 0xff0f6a70, 0x66063bca, 0x11010b5c,
     0x8f659eff, 0xf862ae69, 0x616bffd3, 0x166ccf45]
  }

  function Row14(): seq<bv32> {
    [0xa00ae278, 0xd70dd2ee, 0x4e048354, 0x3903b3c2,
     0xa7672661, 0xd06016f7, 0x4969474d, 0x3e6e77db,
     0xaed16a4a, 0xd9d65adc, 0x40df0b66, 0x37d83bf0,
     0xa9bcae53, 0xdebb9ec5, 0x47b2cf7f, 0x30b5ffe9]
  }

  function Row15(): seq<bv32> {
    [0xbdbdf21c, 0xcabac28a, 0x53b39330, 0x24b4a3a6,
     0xbad03605, 0xcdd70693, 0x54de5729, 0x23d967bf,
     0xb3667a2e, 0xc4614ab8, 0x5d681b02, 0x2a6f2b94,
     0xb40bbe37, 0xc30c8ea1, 0x5a05df1b, 0x2d02ef8d]
  }

  /** crc_32_tab. */
  function Entry(x: bv8): bv32 {
    LowNibble(x);
    RowOf(x >> 4)[(x & 15) as nat]
  }

  lemma LowNibble(x: bv8)
    ensures (x & 15) as nat < 16
  {
  }

  function RowOf(hi: bv8): (r: seq<bv32>)
    ensures |r| == 16
  {
    match hi
    case 0 => Row0()
    case 1 => Row1()
    case 2 => Row2()
    case 3 => Row3()
    case 4 => Row4()
    case 5 => Row5()
    case 6 => Row6()
    case 7 => Row7()
    case 8 => Row8()
    case 9 => Row9()
    case 10 => Row10()
    case 11 => Row11()
    case 12 => Row12()
    case 13 => Row13()
    case 14 => Row14()
    case _ => Row15()
  }

  /** A byte from its high and its low half. */
  function Join(b: bv32, lo: bv8): bv32 { b | (lo as bv32) }

  /** What sixteen entries of the table should be. */
  function Sixteen(b: bv32): (r: seq<bv32>)
    ensures |r| == 16
  {
    [Shift8(Join(b, 0)), Shift8(Join(b, 1)), Shift8(Join(b, 2)), Shift8(Join(b, 3)),
     Shift8(Join(b, 4)), Shift8(Join(b, 5)), Shift8(Join(b, 6)), Shift8(Join(b, 7)),
     Shift8(Join(b, 8)), Shift8(Join(b, 9)), Shift8(Join(b, 10)), Shift8(Join(b, 11)),
     Shift8(Join(b, 12)), Shift8(Join(b, 13)), Shift8(Join(b, 14)), Shift8(Join(b, 15))]
  }

  lemma Row0Is() ensures Row0() == Sixteen(0x0) {}

  lemma Row1Is() ensures Row1() == Sixteen(0x10) {}

  lemma Row2Is() ensures Row2() == Sixteen(0x20) {}

  lemma Row3Is() ensures Row3() == Sixteen(0x30) {}

  lemma Row4Is() ensures Row4() == Sixteen(0x40) {}

  lemma Row5Is() ensures Row5() == Sixteen(0x50) {}

  lemma Row6Is() ensures Row6() == Sixteen(0x60) {}

  lemma Row7Is() ensures Row7() == Sixteen(0x70) {}

  lemma Row8Is() ensures Row8() == Sixteen(0x80) {}

  lemma Row9Is() ensures Row9() == Sixteen(0x90) {}

  lemma Row10Is() ensures Row10() == Sixteen(0xa0) {}

  lemma Row11Is() ensures Row11() == Sixteen(0xb0) {}

  lemma Row12Is() ensures Row12() == Sixteen(0xc0) {}

  lemma Row13Is() ensures Row13() == Sixteen(0xd0) {}

  lemma Row14Is() ensures Row14() == Sixteen(0xe0) {}

  lemma Row15Is() ensures Row15() == Sixteen(0xf0) {}

  lemma RowIs(hi: bv8)
    requires hi < 16
    ensures RowOf(hi) == Sixteen((hi as bv32) << 4)
  {
    hide Sixteen, Row0, Row1, Row2, Row3, Row4, Row5, Row6, Row7, Row8, Row9, Row10, Row11, Row12, Row13, Row14, Row15;
    match hi
    case 0 => Row0Is();
    case 1 => Row1Is();
    case 2 => Row2Is();
    case 3 => Row3Is();
    case 4 => Row4Is();
    case 5 => Row5Is();
    case 6 => Row6Is();
    case 7 => Row7Is();
    case 8 => Row8Is();
    case 9 => Row9Is();
    case 10 => Row10Is();
    case 11 => Row11Is();
    case 12 => Row12Is();
    case 13 => Row13Is();
    case 14 => Row14Is();
    case _ =>
      assert hi == 15;
      Row15Is();
  }

  lemma SixteenAt(b: bv32, i: nat)
    requires i < 16
    ensures Sixteen(b)[i] == Shift8(Join(b, i as bv8))
  {
    hide Shift8, Join;
  }

  lemma PickIs(b: bv32, lo: bv8)
    requires lo < 16 && lo as nat < 16
    ensures Sixteen(b)[lo as nat] == Shift8(Join(b, lo))
  {
    hide Shift8, Join;
    var i := lo as nat;
    assert i as bv8 == lo;
    hide Sixteen;
    SixteenAt(b, i);
  }

  lemma Nibbles(x: bv8)
    ensures x >> 4 < 16 && x & 15 < 16
    ensures Join(((x >> 4) as bv32) << 4, x & 15) == x as bv32
  {
  }

  /** The table is right: its entry for a byte is the remainder of that byte. */
  lemma TableIsDivision(x: bv8)
    ensures Entry(x) == Shift8(x as bv32)
  {
    hide Shift8, RowOf, Sixteen, Join;
    LowNibble(x);
    Nibbles(x);
    RowIs(x >> 4);
    PickIs(((x >> 4) as bv32) << 4, x & 15);
  }

  // ---------- Division byte by byte ----------

  lemma ShiftIsLinear(a: bv32, b: bv32)
    ensures Shift(a ^ b) == Shift(a) ^ Shift(b)
  {
    LowXor(a, b);
    HalfXor(a, b);
    XorThrice(a >> 1, b >> 1, POLY);
  }

  lemma LowXor(a: bv32, b: bv32)
    ensures (a ^ b) & 1 == 1 <==> (a & 1 == 1) != (b & 1 == 1)
  {
  }

  lemma HalfXor(a: bv32, b: bv32)
    ensures (a ^ b) >> 1 == (a >> 1) ^ (b >> 1)
  {
  }

  lemma XorThrice(a: bv32, b: bv32, p: bv32)
    ensures (a ^ p) ^ (b ^ p) == a ^ b && (a ^ p) ^ b == (a ^ b) ^ p && a ^ (b ^ p) == (a ^ b) ^ p
  {
  }

  // The parts of a step, named so that the proofs about them stay apart.

  function Xor(a: bv32, b: bv32): bv32 { a ^ b }

  function Low8(c: bv32): bv8 { (c & 0xff) as bv8 }

  function High24(c: bv32): bv32 { c & 0xffff_ff00 }

  function Down8(c: bv32): bv32 { c >> 8 }

  function Wide(b: bv8): bv32 { b as bv32 }

  /** The high coefficients only move. */
  lemma HighPart(c: bv32)
    ensures Shift8(High24(c)) == Down8(c)
  {
  }

  lemma Parts(c: bv32)
    ensures c == Xor(Wide(Low8(c)), High24(c))
  {
  }

  lemma SameHigh(c: bv32, b: bv8)
    ensures Down8(Xor(c, Wide(b))) == Down8(c)
  {
  }

  /** A step of updcrc. */
  function Step(c: bv32, b: bv8): bv32 {
    Xor(Entry(Low8(Xor(c, Wide(b)))), Down8(c))
  }

  lemma ShiftOfXor(a: bv32, b: bv32)
    ensures Shift(Xor(a, b)) == Xor(Shift(a), Shift(b))
  {
    hide Shift;
    ShiftIsLinear(a, b);
  }

  lemma Shift2OfXor(a: bv32, b: bv32)
    ensures Shift2(Xor(a, b)) == Xor(Shift2(a), Shift2(b))
  {
    hide Shift, Xor;
    ShiftOfXor(a, b);
    ShiftOfXor(Shift(a), Shift(b));
  }

  lemma Shift4OfXor(a: bv32, b: bv32)
    ensures Shift4(Xor(a, b)) == Xor(Shift4(a), Shift4(b))
  {
    hide Shift2, Xor;
    Shift2OfXor(a, b);
    Shift2OfXor(Shift2(a), Shift2(b));
  }

  lemma Shift8OfXor(a: bv32, b: bv32)
    ensures Shift8(Xor(a, b)) == Xor(Shift8(a), Shift8(b))
  {
    hide Shift4, Xor;
    Shift4OfXor(a, b);
    Shift4OfXor(Shift4(a), Shift4(b));
  }

  lemma EntryIs(x: bv8)
    ensures Entry(x) == Shift8(Wide(x))
  {
    hide Shift8, Entry;
    TableIsDivision(x);
  }

  /** It divides by eight bits at once. */
  lemma TableStep(c: bv32, b: bv8)
    ensures Step(c, b) == Shift8(Xor(c, Wide(b)))
  {
    hide Entry, Shift8, Xor, Low8, High24, Down8, Wide;
    var y := Xor(c, Wide(b));
    EntryIs(Low8(y));
    Parts(y);
    Shift8OfXor(Wide(Low8(y)), High24(y));
    HighPart(y);
    SameHigh(c, b);
  }

  // ---------- Division bit by bit ----------

  lemma FlipLow(c: bv32)
    ensures (c ^ 1) & 1 == 1 <==> c & 1 != 1
    ensures (c ^ 1) >> 1 == c >> 1
  {
  }

  function Low1(b: bv8): bv32 { (b & 1) as bv32 }

  function Half(b: bv8): bv8 { b >> 1 }

  /** Taking in a bit is cancelling it in the register first. */
  lemma TakeIsShift(c: bv32, b: bv8)
    ensures TakeBit(c, b & 1 == 1) == Shift(Xor(c, Low1(b)))
  {
    FlipLow(c);
    assert b & 1 == 1 || b & 1 == 0;
    assert Low1(b) == if b & 1 == 1 then 1 else 0;
  }

  lemma ByteParts(c: bv32, b: bv8)
    ensures Xor(c, Wide(b)) == Xor(Xor(c, Low1(b)), Wide(b & 0xfe))
    ensures Shift(Wide(b & 0xfe)) == Wide(Half(b))
  {
  }

  /** With a byte mixed in, a shift takes in its lowest bit and leaves the others mixed in. */
  lemma OneBit(c: bv32, b: bv8)
    ensures Shift(Xor(c, Wide(b))) == Xor(TakeBit(c, b & 1 == 1), Wide(Half(b)))
  {
    hide Shift, Xor, TakeBit, Low1, Half, Wide;
    TakeIsShift(c, b);
    ByteParts(c, b);
    ShiftOfXor(Xor(c, Low1(b)), Wide(b & 0xfe));
  }

  function Shifts(c: bv32, n: nat): bv32
    decreases n
  {
    if n == 0 then c else Shifts(Shift(c), n - 1)
  }

  function Rest(b: bv8, n: nat): bv8
    decreases n
  {
    if n == 0 then b else Rest(Half(b), n - 1)
  }

  lemma {:induction false} BitsAreShifts(c: bv32, b: bv8, n: nat)
    ensures Shifts(Xor(c, Wide(b)), n) == Xor(TakeBits(c, BitsOf(b, n)), Wide(Rest(b, n)))
    decreases n
  {
    hide Shift, Xor, Wide, TakeBit;
    if n > 0 {
      OneBit(c, b);
      BitsAreShifts(TakeBit(c, b & 1 == 1), b >> 1, n - 1);
      var bits := BitsOf(b, n);
      assert bits[0] == (b & 1 == 1) && bits[1..] == BitsOf(b >> 1, n - 1);
    }
  }

  lemma EightShifts(c: bv32)
    ensures Shifts(c, 8) == Shift8(c)
  {
    hide Shift;
    assert Shifts(c, 8) == Shifts(Shift(Shift(Shift(Shift(c)))), 4);
  }

  lemma NoRest(b: bv8)
    ensures Rest(b, 8) == 0
  {
    var b4 := (b >> 4);
    assert Rest(b, 8) == Rest(Half(Half(Half(Half(b)))), 4);
    assert Half(Half(Half(Half(b)))) == b4;
    assert Half(Half(Half(Half(b4)))) == 0;
  }

  /** A step of updcrc takes in the eight bits of the byte. */
  lemma {:induction false} StepTakesByte(c: bv32, b: bv8)
    ensures Step(c, b) == TakeBits(c, BitsOf(b, 8))
  {
    var d := TakeBits(c, BitsOf(b, 8));
    assert Xor(d, Wide(0)) == d;
    hide Shift8, Step, BitsOf, TakeBits, Xor, Wide, Rest, Shifts;
    TableStep(c, b);
    EightShifts(Xor(c, Wide(b)));
    BitsAreShifts(c, b, 8);
    NoRest(b);
  }

  // ---------- The register over a whole string ----------

  /** All steps of updcrc. */
  function Update(c: bv32, s: seq<bv8>): bv32
    decreases |s|
  {
    if s == [] then c else Update(Step(c, s[0]), s[1..])
  }

  lemma {:induction false} TakeBoth(c: bv32, x: seq<bool>, y: seq<bool>)
    ensures TakeBits(c, x + y) == TakeBits(TakeBits(c, x), y)
    decreases |x|
  {
    hide TakeBit;
    if x == [] {
      assert x + y == y;
    } else {
      assert (x + y)[1..] == x[1..] + y;
      TakeBoth(TakeBit(c, x[0]), x[1..], y);
    }
  }

  /** From the table or bit by bit: the remainder is the same, for every string. */
  lemma {:induction false} UpdateIsDivision(c: bv32, s: seq<bv8>)
    ensures Update(c, s) == TakeBits(c, AllBits(s))
    decreases |s|
  {
    hide Step, BitsOf;
    if s != [] {
      StepTakesByte(c, s[0]);
      TakeBoth(c, BitsOf(s[0], 8), AllBits(s[1..]));
      UpdateIsDivision(Step(c, s[0]), s[1..]);
    }
  }

  /** In pieces or as a whole. */
  lemma {:induction false} PiecesAreWhole(c: bv32, a: seq<bv8>, b: seq<bv8>)
    ensures Update(c, a + b) == Update(Update(c, a), b)
    decreases |a|
  {
    hide Step;
    if a == [] {
      assert a + b == b;
    } else {
      assert (a + b)[1..] == a[1..] + b;
      PiecesAreWhole(Step(c, a[0]), a[1..], b);
    }
  }

  // ---------- Errors that are noticed ----------

  /** Nothing is lost in a step: the leading term of the polynomial can be told from the
      top bit of the register. */
  lemma TopBit(c: bv32)
    ensures Shift(c) & 0x8000_0000 == 0x8000_0000 <==> c & 1 == 1
  {
  }

  lemma ShiftInjective(a: bv32, b: bv32)
    requires Shift(a) == Shift(b)
    ensures a == b
  {
    TopBit(a);
    TopBit(b);
    Unshift(a);
    Unshift(b);
  }

  /** The bits of c from those of its shift. */
  lemma Unshift(c: bv32)
    ensures c == if c & 1 == 1 then ((Shift(c) ^ POLY) << 1) | 1 else Shift(c) << 1
  {
  }

  lemma {:induction false} ShiftsInjective(a: bv32, b: bv32, n: nat)
    requires Shifts(a, n) == Shifts(b, n)
    ensures a == b
    decreases n
  {
    hide Shift;
    if n > 0 {
      ShiftsInjective(Shift(a), Shift(b), n - 1);
      ShiftInjective(a, b);
    }
  }

  lemma StepInjective(a: bv32, b: bv32, x: bv8, y: bv8)
    requires Step(a, x) == Step(b, y)
    ensures Xor(a, Wide(x)) == Xor(b, Wide(y))
  {
    hide Step, Shift8, Xor, Wide, Shifts;
    TableStep(a, x);
    TableStep(b, y);
    EightShifts(Xor(a, Wide(x)));
    EightShifts(Xor(b, Wide(y)));
    ShiftsInjective(Xor(a, Wide(x)), Xor(b, Wide(y)), 8);
  }

  /** Different registers stay different. */
  lemma {:induction false} UpdateInjective(a: bv32, b: bv32, s: seq<bv8>)
    requires Update(a, s) == Update(b, s)
    ensures a == b
    decreases |s|
  {
    hide Step, Xor;
    if s != [] {
      UpdateInjective(Step(a, s[0]), Step(b, s[0]), s[1..]);
      StepInjective(a, b, s[0], s[0]);
      XorCancels(a, b, Wide(s[0]));
    }
  }

  lemma XorCancels(a: bv32, b: bv32, c: bv32)
    requires Xor(a, c) == Xor(b, c)
    ensures a == b
  {
    assert Xor(Xor(a, c), c) == a && Xor(Xor(b, c), c) == b;
  }

  function Up8(c: bv32): bv32 { c << 8 }

  /** Up to four bytes as they lie in the register, the first one lowest. */
  function WordOf(x: seq<bv8>): bv32
    decreases |x|
  {
    if x == [] then 0 else Xor(Wide(x[0]), Up8(WordOf(x[1..])))
  }

  /** The word of n bytes has no more than 8 n bits. */
  predicate Narrow(w: bv32, n: nat) {
    w <= if n == 0 then 0 else if n == 1 then 0xff else if n == 2 then 0xffff else 0xff_ffff
  }

  lemma NarrowByOne(b: bv8, w: bv32, n: nat)
    requires 1 <= n <= 3 && Narrow(w, n - 1)
    ensures Narrow(Xor(Wide(b), Up8(w)), n)
  {
  }

  lemma NarrowZero(n: nat)
    ensures Narrow(0, n)
  {
  }

  lemma {:induction false} WordBound(x: seq<bv8>)
    requires |x| <= 3
    ensures Narrow(WordOf(x), |x|) && Narrow(WordOf(x), 3)
    decreases |x|
  {
    hide Xor, Wide, Up8, Narrow;
    if x == [] {
      NarrowZero(0);
    } else {
      WordBound(x[1..]);
      NarrowByOne(x[0], WordOf(x[1..]), |x|);
    }
    AsNarrow(WordOf(x), |x|);
  }

  lemma AsNarrow(w: bv32, n: nat)
    requires Narrow(w, n)
    ensures Narrow(w, 3)
  {
  }

  lemma WordParts(b: bv8, w: bv32)
    requires Narrow(w, 3)
    ensures Down8(Up8(w)) == w && High24(Up8(w)) == Up8(w)
    ensures Low8(Xor(Wide(b), Up8(w))) == b && Down8(Xor(Wide(b), Up8(w))) == w
  {
  }

  lemma Regroup(a: bv32, b: bv32, c: bv32)
    ensures Xor(a, Xor(b, c)) == Xor(Xor(a, b), c)
  {
  }

  /** Eight shifts move the next byte of the word down to where a step takes it in. */
  lemma EightMore(c: bv32, b: bv8, w: bv32)
    requires Narrow(w, 3)
    ensures Shift8(Xor(c, Xor(Wide(b), Up8(w)))) == Xor(Step(c, b), w)
  {
    WordParts(b, w);
    HighPart(Up8(w));
    hide Step, Shift8, Xor, Wide, Up8, High24, Down8, Low8;
    TableStep(c, b);
    Regroup(c, Wide(b), Up8(w));
    Shift8OfXor(Xor(c, Wide(b)), Up8(w));
  }

  lemma {:induction false} ShiftsAdd(c: bv32, m: nat, n: nat)
    ensures Shifts(c, m + n) == Shifts(Shifts(c, m), n)
    decreases m
  {
    hide Shift;
    if m > 0 { ShiftsAdd(Shift(c), m - 1, n); }
  }

  lemma XorZero(c: bv32)
    ensures Xor(c, 0) == c
  {
  }

  lemma {:induction false} UpdateIsShifts(c: bv32, x: seq<bv8>)
    requires |x| <= 4
    ensures Update(c, x) == Shifts(Xor(c, WordOf(x)), 8 * |x|)
    decreases |x|
  {
    hide Step, Shift8, Xor, Wide, Up8, Shift, Narrow;
    if x == [] {
      XorZero(c);
    } else {
      var w := WordOf(x[1..]);
      WordBound(x[1..]);
      EightMore(c, x[0], w);
      EightShifts(Xor(c, WordOf(x)));
      ShiftsAdd(Xor(c, WordOf(x)), 8, 8 * (|x| - 1));
      UpdateIsShifts(Step(c, x[0]), x[1..]);
    }
  }

  lemma {:induction false} WordInjective(x: seq<bv8>, y: seq<bv8>)
    requires |x| == |y| <= 4 && WordOf(x) == WordOf(y)
    ensures x == y
    decreases |x|
  {
    hide Xor, Wide, Up8, Narrow, Low8, Down8, High24;
    if x != [] {
      WordBound(x[1..]);
      WordBound(y[1..]);
      WordParts(x[0], WordOf(x[1..]));
      WordParts(y[0], WordOf(y[1..]));
      WordInjective(x[1..], y[1..]);
      assert x == [x[0]] + x[1..] && y == [y[0]] + y[1..];
    }
  }

  lemma XorCancelsLeft(c: bv32, a: bv32, b: bv32)
    requires Xor(c, a) == Xor(c, b)
    ensures a == b
  {
    assert Xor(c, Xor(c, a)) == a && Xor(c, Xor(c, b)) == b;
  }

  /** Damage within four consecutive bytes of a string of any length is always noticed. */
  lemma {:induction false} BurstIsNoticed(c: bv32, head: seq<bv8>, x: seq<bv8>, y: seq<bv8>, tail: seq<bv8>)
    requires |x| == |y| <= 4 && x != y
    ensures Update(c, head + x + tail) != Update(c, head + y + tail)
  {
    hide Update, WordOf, Shifts, Xor;
    var d := Update(c, head);
    PiecesAreWhole(c, head + x, tail);
    PiecesAreWhole(c, head, x);
    PiecesAreWhole(c, head + y, tail);
    PiecesAreWhole(c, head, y);
    if Update(c, head + x + tail) == Update(c, head + y + tail) {
      UpdateInjective(Update(d, x), Update(d, y), tail);
      UpdateIsShifts(d, x);
      UpdateIsShifts(d, y);
      ShiftsInjective(Xor(d, WordOf(x)), Xor(d, WordOf(y)), 8 * |x|);
      XorCancelsLeft(d, WordOf(x), WordOf(y));
      WordInjective(x, y);
    }
  }

  // ---------- updcrc ----------

  datatype Buffer = Null | Bytes(s: seq<bv8>)

  /** The register that updcrc keeps from call to call. */
  class Register {
    var crc: bv32

    constructor ()
      ensures crc == ALL_ONES
    {
      crc := ALL_ONES;
    }

    /** updcrc: NULL starts a new string. */
    method Updcrc(buf: Buffer) returns (r: bv32)
      modifies this
      ensures crc == if buf.Null? then ALL_ONES else Update(old(crc), buf.s)
      ensures r == crc ^ ALL_ONES
    {
      hide Step, Update;
      var c: bv32;
      if buf == Null {
        c := ALL_ONES;
      } else {
        c := crc;
        c := Steps(c, buf.s);
      }
      crc := c;
      r := c ^ ALL_ONES;
    }
  }

  /** The loop of updcrc. */
  method Steps(c0: bv32, s: seq<bv8>) returns (c: bv32)
    ensures c == Update(c0, s)
  {
    hide Step;
    c := c0;
    var i := 0;
    while i < |s|
      invariant 0 <= i <= |s| && Update(c, s[i..]) == Update(c0, s)
    {
      assert s[i..][0] == s[i] && s[i..][1..] == s[i + 1..];
      c := Step(c, s[i]);
      i := i + 1;
    }
    assert s[i..] == [];
  }
}
