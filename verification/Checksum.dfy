/** The Internet checksum, RFC 1071 section 1, and the checksum of a TCP segment. */
module Checksum {
  import opened Common

  const MAX_PACKET := 65535
  const INT_MAX := 0x7fff_ffff

  // ---------- The one's complement sum ----------

  /** A 16-bit word as the little-endian host loads it. */
  function WordAt(s: seq<Byte>, i: nat): (w: nat)
    requires i < |s|
    ensures w < 0x1_0000
  {
    if i + 1 < |s| then s[i] as int + 256 * s[i + 1] as int else s[i]
  }

  /** One's complement addition: a carry out of the top comes in at the bottom. */
  function AddOnes(a: nat, b: nat): nat {
    if a + b < 0x1_0000 then a + b else a + b - 0xffff
  }

  /** The one's complement sum of all words; a last odd byte is padded with a zero. */
  function OnesSum(s: seq<Byte>): (r: nat)
    ensures r < 0x1_0000
  {
    if |s| == 0 then 0 else if |s| == 1 then s[0] else AddOnes(WordAt(s, 0), OnesSum(s[2..]))
  }

  function WordSum(s: seq<Byte>): nat {
    if |s| == 0 then 0 else if |s| == 1 then s[0] else WordAt(s, 0) + WordSum(s[2..])
  }

  /** The representative of a sum that one's complement addition ends at: 0 only for 0. */
  function Reduced(v: nat): nat {
    if v == 0 then 0 else 1 + (v - 1) % 0xffff
  }

  lemma {:induction false} SumIsReduced(s: seq<Byte>)
    ensures OnesSum(s) == Reduced(WordSum(s))
  {
    if |s| >= 2 { SumIsReduced(s[2..]); }
  }

  lemma {:induction false} SumBound(s: seq<Byte>)
    ensures WordSum(s) <= 0xffff * (|s| / 2) + 0xff
    ensures WordSum(s) == 0 <==> forall i :: 0 <= i < |s| ==> s[i] == 0
  {
    if |s| >= 2 {
      SumBound(s[2..]);
      assert forall i :: 2 <= i < |s| ==> s[i] == s[2..][i - 2];
      assert (forall i :: 0 <= i < |s| ==> s[i] == 0) <==> s[0] == 0 && s[1] == 0 && forall i :: 0 <= i < |s| - 2 ==> s[2..][i] == 0;
    }
  }

  /** Two folds suffice for every sum that an int holds. */
  lemma TwoFolds(v: nat)
    requires v <= INT_MAX
    ensures var once := v / 0x1_0000 + v % 0x1_0000;
            (once + once / 0x1_0000) % 0x1_0000 == Reduced(v)
  {
    var once := v / 0x1_0000 + v % 0x1_0000;
    assert v == 0xffff * (v / 0x1_0000) + once;
    assert once < 2 * 0x1_0000;
    if v > 0 {
      assert (v - 1) % 0xffff == (once - 1) % 0xffff;
    }
  }

  function Answer(s: seq<Byte>): (r: nat)
    ensures r < 0x1_0000
  {
    0xffff - OnesSum(s)
  }

  lemma TailOf(s: seq<Byte>, i: nat)
    requires i <= |s|
    ensures i + 1 < |s| ==> WordSum(s[i..]) == WordAt(s, i) + WordSum(s[i + 2..])
    ensures i + 1 == |s| ==> WordSum(s[i..]) == s[i]
    ensures i == |s| ==> WordSum(s[i..]) == 0
  {
    if i + 1 < |s| {
      assert s[i..][2..] == s[i + 2..];
    }
  }

  /** The end of checksum: folds the carries in twice and complements. */
  method Fold(total: nat) returns (answer: nat)
    requires total <= INT_MAX
    ensures answer == 0xffff - Reduced(total)
  {
    TwoFolds(total);
    var sum := total / 0x1_0000 + total % 0x1_0000;
    sum := sum + sum / 0x1_0000;
    answer := (-1 - sum) % 0x1_0000;
  }

  /** checksum.  No partial sum of a packet overflows an int. */
  method Checksum(addr: seq<Byte>) returns (answer: nat)
    requires |addr| <= MAX_PACKET
    ensures answer == Answer(addr)
  {
    hide WordSum, OnesSum, Reduced;
    var nleft, sum, w := |addr|, 0, 0;
    assert addr[0..] == addr;
    while nleft > 1
      invariant 0 <= w && 0 <= nleft && w + nleft == |addr| && w % 2 == 0 && sum + WordSum(addr[w..]) == WordSum(addr)
      invariant 0 <= sum <= 0xffff * (w / 2)
    {
      TailOf(addr, w);
      sum := sum + WordAt(addr, w);
      w := w + 2;
      nleft := nleft - 2;
      assert sum <= INT_MAX;
    }
    TailOf(addr, w);
    if nleft == 1 {
      sum := sum + addr[w];
    }
    SumIsReduced(addr);
    answer := Fold(sum);
  }

  // ---------- What the checksum is for ----------

  /** s with the aligned word at 2 k replaced. */
  function WithWord(s: seq<Byte>, k: nat, w: nat): seq<Byte>
    requires 2 * k + 1 < |s| && w < 0x1_0000
  {
    s[2 * k := w % 256][2 * k + 1 := w / 256]
  }

  lemma {:induction false} SumWithWord(s: seq<Byte>, k: nat, w: nat)
    requires 2 * k + 1 < |s| && w < 0x1_0000
    ensures WordSum(WithWord(s, k, w)) + WordAt(s, 2 * k) == WordSum(s) + w
  {
    var t := WithWord(s, k, w);
    if k == 0 {
      assert t[2..] == s[2..];
    } else {
      SumWithWord(s[2..], k - 1, w);
      assert t[2..] == WithWord(s[2..], k - 1, w);
    }
  }

  /** The result stored in a zeroed word makes the checksum of the whole zero. */
  lemma StoredIsZero(s: seq<Byte>, k: nat)
    requires 2 * k + 1 < |s| && WordAt(s, 2 * k) == 0
    ensures Answer(WithWord(s, k, Answer(s))) == 0
  {
    hide WordSum, OnesSum, WithWord;
    SumIsReduced(s);
    SumIsReduced(WithWord(s, k, Answer(s)));
    SumWithWord(s, k, Answer(s));
    ComplementCancels(WordSum(s));
  }

  lemma ComplementCancels(v: nat)
    ensures Reduced(v) <= 0xffff && Reduced(v + (0xffff - Reduced(v))) == 0xffff
  {
    if v > 0 {
      var q := (v - 1) / 0xffff;
      assert v + (0xffff - Reduced(v)) == 0xffff * (q + 1);
    }
  }

  /** A changed word is noticed, unless only the sign of its zero changed: exactly then. */
  lemma ChangeIsNoticed(s: seq<Byte>, k: nat, w: nat)
    requires 2 * k + 1 < |s| && w < 0x1_0000 && Answer(s) == 0
    ensures var was := WordAt(s, 2 * k);
            Answer(WithWord(s, k, w)) == 0 <==>
            w == was || (was == 0 && w == 0xffff) || (was == 0xffff && w == 0 && WordSum(s) > 0xffff)
  {
    hide WordSum, OnesSum, WithWord;
    SumIsReduced(s);
    SumIsReduced(WithWord(s, k, w));
    SumWithWord(s, k, w);
    Multiple(WordSum(s));
    Multiple(WordSum(WithWord(s, k, w)));
  }

  lemma Multiple(v: nat)
    ensures Reduced(v) == 0xffff <==> v > 0 && v % 0xffff == 0
  {
    if v > 0 {
      assert v == 0xffff * ((v - 1) / 0xffff) + Reduced(v);
    }
  }

  /** A zero byte behind an odd number of bytes changes nothing. */
  lemma {:induction false} PaddingIsNeutral(s: seq<Byte>)
    requires |s| % 2 == 1
    ensures Answer(s + [0]) == Answer(s)
  {
    var t := s + [0];
    if |s| == 1 {
      assert t[2..] == [] && t[0] == s[0] && t[1] == 0;
      assert OnesSum(t) == AddOnes(WordAt(t, 0), OnesSum(t[2..]));
    } else {
      assert t[2..] == s[2..] + [0];
      PaddingIsNeutral(s[2..]);
    }
  }

  // ---------- TCP ----------

  datatype IpHeader = IpHeader(src: seq<Byte>, dst: seq<Byte>, protocol: Byte) {
    predicate Ok() { |src| == |dst| == 4 }
  }

  /** A header of 20 bytes; multi-byte fields are in network order already. */
  datatype TcpHeader = TcpHeader(sport: seq<Byte>, dport: seq<Byte>, number: seq<Byte>, ack: seq<Byte>,
                                 off: nat, x2: nat, flags: Byte, win: seq<Byte>, urp: seq<Byte>) {
    predicate Ok() {
      |sport| == |dport| == |win| == |urp| == 2 && |number| == |ack| == 4 && off < 16 && x2 < 16
    }

    /** The header as it is sent. */
    function Bytes(sum: seq<Byte>): (r: seq<Byte>)
      requires Ok() && |sum| == 2
      ensures |r| == 20
    {
      sport + dport + number + ack + [16 * off + x2, flags] + win + sum + urp
    }
  }

  const TCP_HEADER := 20
  const MAX_PAYLOAD := 65495

  /** A 16-bit number in network order. */
  function Htons(v: nat): (r: seq<Byte>)
    requires v < 0x1_0000
    ensures |r| == 2
  {
    [v / 256, v % 256]
  }

  /** The pseudo header. */
  function Pseudo(ip: IpHeader, length: nat): (r: seq<Byte>)
    requires ip.Ok() && length < 0x1_0000
    ensures |r| == 12
  {
    ip.src + ip.dst + [0, ip.protocol] + Htons(length)
  }

  /** Section 3.1 of RFC 793: what the checksum of a segment covers. */
  function Covered(ip: IpHeader, tcp: TcpHeader, sum: seq<Byte>, payload: seq<Byte>): (r: seq<Byte>)
    requires ip.Ok() && tcp.Ok() && |sum| == 2 && |payload| <= MAX_PAYLOAD
    ensures |r| == 32 + |payload|
  {
    Pseudo(ip, TCP_HEADER + |payload|) + tcp.Bytes(sum) + payload
  }

  // ---------- What the checksum covers, field by field ----------

  /** Two bytes as the host adds them. */
  function Pair(s: seq<Byte>): (w: nat)
    requires |s| == 2
    ensures w < 0x1_0000
  {
    s[0] as int + 256 * s[1] as int
  }

  /** The two words of a four-byte field. */
  function Words(s: seq<Byte>): nat
    requires |s| == 4
  {
    s[0] as int + 256 * s[1] as int + s[2] as int + 256 * s[3] as int
  }

  /** The plain sum of a segment's words, field by field: the length and the protocol come
      last in their words of the pseudo header, the data offset and the flags share one. */
  function Weight(ip: IpHeader, tcp: TcpHeader, payload: seq<Byte>): nat
    requires ip.Ok() && tcp.Ok() && |payload| <= MAX_PAYLOAD
  {
    var length := 20 + |payload|;
    Words(ip.src) + Words(ip.dst) + 256 * ip.protocol as int + length / 256 + 256 * (length % 256)
    + Pair(tcp.sport) + Pair(tcp.dport) + Words(tcp.number) + Words(tcp.ack)
    + (16 * tcp.off + tcp.x2) + 256 * tcp.flags as int + Pair(tcp.win) + Pair(tcp.urp) + WordSum(payload)
  }

  lemma {:induction false} SumOfBoth(a: seq<Byte>, b: seq<Byte>)
    requires |a| % 2 == 0
    ensures WordSum(a + b) == WordSum(a) + WordSum(b)
  {
    if a == [] {
      assert a + b == b;
    } else {
      SumOfBoth(a[2..], b);
      assert (a + b)[2..] == a[2..] + b;
    }
  }

  lemma SumOfFew(a: seq<Byte>)
    ensures |a| == 2 ==> WordSum(a) == Pair(a)
    ensures |a| == 4 ==> WordSum(a) == Words(a)
  {
    if |a| == 4 { assert a[2..][2..] == []; }
  }

  lemma HeaderWeight(tcp: TcpHeader)
    requires tcp.Ok()
    ensures WordSum(tcp.Bytes([0, 0])) ==
            Pair(tcp.sport) + Pair(tcp.dport) + Words(tcp.number) + Words(tcp.ack)
            + (16 * tcp.off + tcp.x2) + 256 * tcp.flags as int + Pair(tcp.win) + Pair(tcp.urp)
  {
    hide WordSum, Pair, Words;
    var mid: seq<Byte> := [16 * tcp.off + tcp.x2, tcp.flags];
    SumOfFew(tcp.sport); SumOfFew(tcp.dport); SumOfFew(tcp.number); SumOfFew(tcp.ack);
    SumOfFew(mid); SumOfFew(tcp.win); SumOfFew([0, 0]); SumOfFew(tcp.urp);
    SumOfBoth(tcp.sport, tcp.dport);
    SumOfBoth(tcp.sport + tcp.dport, tcp.number);
    SumOfBoth(tcp.sport + tcp.dport + tcp.number, tcp.ack);
    SumOfBoth(tcp.sport + tcp.dport + tcp.number + tcp.ack, mid);
    SumOfBoth(tcp.sport + tcp.dport + tcp.number + tcp.ack + mid, tcp.win);
    SumOfBoth(tcp.sport + tcp.dport + tcp.number + tcp.ack + mid + tcp.win, [0, 0]);
    SumOfBoth(tcp.sport + tcp.dport + tcp.number + tcp.ack + mid + tcp.win + [0, 0], tcp.urp);
    MidPair(mid);
  }

  lemma MidPair(mid: seq<Byte>)
    requires |mid| == 2
    ensures Pair(mid) == mid[0] as int + 256 * mid[1] as int && Pair([0, 0]) == 0
  {
  }

  lemma PseudoWeight(ip: IpHeader, length: nat)
    requires ip.Ok() && length < 0x1_0000
    ensures WordSum(Pseudo(ip, length)) == Words(ip.src) + Words(ip.dst) + 256 * ip.protocol as int + length / 256 + 256 * (length % 256)
  {
    hide WordSum, Pair, Words;
    var mid: seq<Byte> := [0, ip.protocol];
    SumOfFew(ip.src); SumOfFew(ip.dst); SumOfFew(mid); SumOfFew(Htons(length));
    SumOfBoth(ip.src, ip.dst);
    SumOfBoth(ip.src + ip.dst, mid);
    SumOfBoth(ip.src + ip.dst + mid, Htons(length));
    MidPair(mid);
    MidPair(Htons(length));
  }

  /** The sum over what is covered is that of the fields. */
  lemma WeightIs(ip: IpHeader, tcp: TcpHeader, payload: seq<Byte>)
    requires ip.Ok() && tcp.Ok() && |payload| <= MAX_PAYLOAD
    ensures WordSum(Covered(ip, tcp, [0, 0], payload)) == Weight(ip, tcp, payload) > 0
    ensures Answer(Covered(ip, tcp, [0, 0], payload)) == 0xffff - Reduced(Weight(ip, tcp, payload))
  {
    hide WordSum, Reduced, OnesSum, Pair, Words, Pseudo, TcpHeader.Bytes;
    var length := TCP_HEADER + |payload|;
    PseudoWeight(ip, length);
    HeaderWeight(tcp);
    SumOfBoth(Pseudo(ip, length), tcp.Bytes([0, 0]));
    SumOfBoth(Pseudo(ip, length) + tcp.Bytes([0, 0]), payload);
    SumIsReduced(Covered(ip, tcp, [0, 0], payload));
    Positive(length);
  }

  lemma Positive(length: nat)
    requires length >= 20
    ensures length / 256 + 256 * (length % 256) > 0
  {
    if length % 256 == 0 { assert length >= 256; }
  }

  /** Two segments have the same checksum if and only if the sums of their fields agree modulo
      0xffff. */
  lemma SameAnswerIff(ip: IpHeader, tcp: TcpHeader, payload: seq<Byte>, ip': IpHeader, tcp': TcpHeader, payload': seq<Byte>)
    requires ip.Ok() && tcp.Ok() && |payload| <= MAX_PAYLOAD && ip'.Ok() && tcp'.Ok() && |payload'| <= MAX_PAYLOAD
    ensures Answer(Covered(ip, tcp, [0, 0], payload)) == Answer(Covered(ip', tcp', [0, 0], payload')) <==>
            Weight(ip, tcp, payload) % 0xffff == Weight(ip', tcp', payload') % 0xffff
  {
    hide Answer, Covered, Weight, Reduced;
    WeightIs(ip, tcp, payload);
    WeightIs(ip', tcp', payload');
    ReducedAgree(Weight(ip, tcp, payload), Weight(ip', tcp', payload'));
  }

  lemma ReducedAgree(v: nat, w: nat)
    requires v > 0 && w > 0
    ensures Reduced(v) == Reduced(w) <==> v % 0xffff == w % 0xffff
  {
    var a, b := (v - 1) % 0xffff, (w - 1) % 0xffff;
    assert v == 0xffff * ((v - 1) / 0xffff) + a + 1 && w == 0xffff * ((w - 1) / 0xffff) + b + 1;
    assert v % 0xffff == (a + 1) % 0xffff && w % 0xffff == (b + 1) % 0xffff;
  }

  /** The same word, or the two zeros of one's complement. */
  predicate SameWord(a: nat, b: nat) { a == b || (a == 0 && b == 0xffff) || (a == 0xffff && b == 0) }

  lemma Agree(v: nat, a: nat, b: nat)
    requires a < 0x1_0000 && b < 0x1_0000
    ensures (v + a) % 0xffff == (v + b) % 0xffff <==> SameWord(a, b)
  {
    if a < b { AgreeLess(v, a, b); } else if b < a { AgreeLess(v, b, a); }
  }

  lemma AgreeLess(v: nat, a: nat, b: nat)
    requires a < b < 0x1_0000
    ensures (v + a) % 0xffff == (v + b) % 0xffff <==> b - a == 0xffff
  {
    var q, r := (v + a) / 0xffff, (v + a) % 0xffff;
    assert v + b == 0xffff * q + r + (b - a);
    if b - a == 0xffff { assert v + b == 0xffff * (q + 1) + r; }
    else if r + (b - a) < 0xffff { assert (v + b) % 0xffff == r + (b - a); }
    else { assert v + b == 0xffff * (q + 1) + (r + (b - a) - 0xffff); assert (v + b) % 0xffff == r + (b - a) - 0xffff; }
  }

  /** Two segments' answers. */
  predicate SameSum(ip: IpHeader, tcp: TcpHeader, payload: seq<Byte>, ip': IpHeader, tcp': TcpHeader, payload': seq<Byte>)
    requires ip.Ok() && tcp.Ok() && |payload| <= MAX_PAYLOAD && ip'.Ok() && tcp'.Ok() && |payload'| <= MAX_PAYLOAD
  {
    Answer(Covered(ip, tcp, [0, 0], payload)) == Answer(Covered(ip', tcp', [0, 0], payload'))
  }

  /** A changed protocol, data offset, reserved bits or flags are always noticed. */
  lemma BytesAreCovered(ip: IpHeader, tcp: TcpHeader, payload: seq<Byte>, protocol: Byte, off: nat, x2: nat, flags: Byte)
    requires ip.Ok() && tcp.Ok() && |payload| <= MAX_PAYLOAD && off < 16 && x2 < 16
    ensures SameSum(ip, tcp, payload, ip.(protocol := protocol), tcp, payload) <==> protocol == ip.protocol
    ensures SameSum(ip, tcp, payload, ip, tcp.(off := off), payload) <==> off == tcp.off
    ensures SameSum(ip, tcp, payload, ip, tcp.(x2 := x2), payload) <==> x2 == tcp.x2
    ensures SameSum(ip, tcp, payload, ip, tcp.(flags := flags), payload) <==> flags == tcp.flags
  {
    hide WordSum, Answer, Covered, Words, Pair, Weight, SameSum;
    ProtocolIsCovered(ip, tcp, payload, protocol);
    NibblesAreCovered(ip, tcp, payload, off, x2);
    FlagsAreCovered(ip, tcp, payload, flags);
  }

  lemma ProtocolIsCovered(ip: IpHeader, tcp: TcpHeader, payload: seq<Byte>, protocol: Byte)
    requires ip.Ok() && tcp.Ok() && |payload| <= MAX_PAYLOAD
    ensures SameSum(ip, tcp, payload, ip.(protocol := protocol), tcp, payload) <==> protocol == ip.protocol
  {
    hide WordSum, Answer, Covered, Words, Pair;
    SameAnswerIff(ip, tcp, payload, ip.(protocol := protocol), tcp, payload);
    Agree(Weight(ip, tcp, payload) - 256 * ip.protocol as int, 256 * ip.protocol as int, 256 * protocol as int);
  }

  lemma NibblesAreCovered(ip: IpHeader, tcp: TcpHeader, payload: seq<Byte>, off: nat, x2: nat)
    requires ip.Ok() && tcp.Ok() && |payload| <= MAX_PAYLOAD && off < 16 && x2 < 16
    ensures SameSum(ip, tcp, payload, ip, tcp.(off := off), payload) <==> off == tcp.off
    ensures SameSum(ip, tcp, payload, ip, tcp.(x2 := x2), payload) <==> x2 == tcp.x2
  {
    hide WordSum, Answer, Covered, Words, Pair;
    SameAnswerIff(ip, tcp, payload, ip, tcp.(off := off), payload);
    SameAnswerIff(ip, tcp, payload, ip, tcp.(x2 := x2), payload);
    Agree(Weight(ip, tcp, payload) - 16 * tcp.off, 16 * tcp.off, 16 * off);
    Agree(Weight(ip, tcp, payload) - tcp.x2, tcp.x2, x2);
  }

  lemma FlagsAreCovered(ip: IpHeader, tcp: TcpHeader, payload: seq<Byte>, flags: Byte)
    requires ip.Ok() && tcp.Ok() && |payload| <= MAX_PAYLOAD
    ensures SameSum(ip, tcp, payload, ip, tcp.(flags := flags), payload) <==> flags == tcp.flags
  {
    hide WordSum, Answer, Covered, Words, Pair;
    SameAnswerIff(ip, tcp, payload, ip, tcp.(flags := flags), payload);
    Agree(Weight(ip, tcp, payload) - 256 * tcp.flags as int, 256 * tcp.flags as int, 256 * flags as int);
  }

  /** A changed port, window or urgent pointer is noticed, unless only the sign of its zero
      changed. */
  lemma WordsAreCovered(ip: IpHeader, tcp: TcpHeader, payload: seq<Byte>, w: seq<Byte>)
    requires ip.Ok() && tcp.Ok() && |payload| <= MAX_PAYLOAD && |w| == 2
    ensures SameSum(ip, tcp, payload, ip, tcp.(sport := w), payload) <==> SameWord(Pair(tcp.sport), Pair(w))
    ensures SameSum(ip, tcp, payload, ip, tcp.(dport := w), payload) <==> SameWord(Pair(tcp.dport), Pair(w))
    ensures SameSum(ip, tcp, payload, ip, tcp.(win := w), payload) <==> SameWord(Pair(tcp.win), Pair(w))
    ensures SameSum(ip, tcp, payload, ip, tcp.(urp := w), payload) <==> SameWord(Pair(tcp.urp), Pair(w))
  {
    hide WordSum, Answer, Covered, Words, Pair, SameWord;
    SameAnswerIff(ip, tcp, payload, ip, tcp.(sport := w), payload);
    SameAnswerIff(ip, tcp, payload, ip, tcp.(dport := w), payload);
    SameAnswerIff(ip, tcp, payload, ip, tcp.(win := w), payload);
    SameAnswerIff(ip, tcp, payload, ip, tcp.(urp := w), payload);
    var v := Weight(ip, tcp, payload);
    Agree(v - Pair(tcp.sport), Pair(tcp.sport), Pair(w));
    Agree(v - Pair(tcp.dport), Pair(tcp.dport), Pair(w));
    Agree(v - Pair(tcp.win), Pair(tcp.win), Pair(w));
    Agree(v - Pair(tcp.urp), Pair(tcp.urp), Pair(w));
  }

  /** A changed address or number is noticed, unless its two words add up to the same modulo
      0xffff. */
  lemma LongsAreCovered(ip: IpHeader, tcp: TcpHeader, payload: seq<Byte>, a: seq<Byte>)
    requires ip.Ok() && tcp.Ok() && |payload| <= MAX_PAYLOAD && |a| == 4
    ensures SameSum(ip, tcp, payload, ip.(src := a), tcp, payload) <==> Words(ip.src) % 0xffff == Words(a) % 0xffff
    ensures SameSum(ip, tcp, payload, ip.(dst := a), tcp, payload) <==> Words(ip.dst) % 0xffff == Words(a) % 0xffff
    ensures SameSum(ip, tcp, payload, ip, tcp.(number := a), payload) <==> Words(tcp.number) % 0xffff == Words(a) % 0xffff
    ensures SameSum(ip, tcp, payload, ip, tcp.(ack := a), payload) <==> Words(tcp.ack) % 0xffff == Words(a) % 0xffff
  {
    hide WordSum, Answer, Covered, Words, Pair;
    SameAnswerIff(ip, tcp, payload, ip.(src := a), tcp, payload);
    SameAnswerIff(ip, tcp, payload, ip.(dst := a), tcp, payload);
    SameAnswerIff(ip, tcp, payload, ip, tcp.(number := a), payload);
    SameAnswerIff(ip, tcp, payload, ip, tcp.(ack := a), payload);
    var v := Weight(ip, tcp, payload);
    Cancel(v - Words(ip.src), Words(ip.src), Words(a));
    Cancel(v - Words(ip.dst), Words(ip.dst), Words(a));
    Cancel(v - Words(tcp.number), Words(tcp.number), Words(a));
    Cancel(v - Words(tcp.ack), Words(tcp.ack), Words(a));
  }

  lemma Cancel(v: nat, a: nat, b: nat)
    ensures (v + a) % 0xffff == (v + b) % 0xffff <==> a % 0xffff == b % 0xffff
  {
    var n: nat := 0xffff;
    var x, y, z := v / n, a / n, b / n;
    var r, p, q := v % n, a % n, b % n;
    assert v + a == n * (x + y) + (r + p) && v + b == n * (x + z) + (r + q);
    Shift(x + y, r + p);
    Shift(x + z, r + q);
    SmallCancel(r, p, q);
  }

  lemma Shift(k: nat, r: nat)
    ensures (0xffff * k + r) % 0xffff == r % 0xffff
  {
  }

  lemma SmallCancel(r: nat, p: nat, q: nat)
    requires r < 0xffff && p < 0xffff && q < 0xffff
    ensures (r + p) % 0xffff == (r + q) % 0xffff <==> p == q
  {
    assert (r + p) % 0xffff == if r + p < 0xffff then r + p else r + p - 0xffff;
    assert (r + q) % 0xffff == if r + q < 0xffff then r + q else r + q - 0xffff;
  }

  /** A changed payload of the same length is noticed, unless its words add up to the same
      modulo 0xffff. */
  lemma PayloadIsCovered(ip: IpHeader, tcp: TcpHeader, payload: seq<Byte>, payload': seq<Byte>)
    requires ip.Ok() && tcp.Ok() && |payload| == |payload'| <= MAX_PAYLOAD
    ensures SameSum(ip, tcp, payload, ip, tcp, payload') <==> WordSum(payload) % 0xffff == WordSum(payload') % 0xffff
  {
    hide WordSum, Answer, Covered, Words, Pair;
    SameAnswerIff(ip, tcp, payload, ip, tcp, payload');
    Cancel(Weight(ip, tcp, payload) - WordSum(payload), WordSum(payload), WordSum(payload'));
  }

  const KNOWN_IP := IpHeader([192, 168, 0, 1], [192, 168, 0, 2], 6)
  const KNOWN_TCP := TcpHeader([4, 210], [0, 80], [0, 0, 0, 1], [0, 0, 0, 2], 5, 0, 18, [32, 0], [0, 0])

  function KnownPayload(): seq<Byte> { [72, 105, 33] }

  lemma KnownWeight()
    ensures Weight(KNOWN_IP, KNOWN_TCP, KnownPayload()) == 201309 && Reduced(201309) == 0x1260
  {
    assert KnownPayload()[2..] == [33];
    assert WordSum(KnownPayload()) == WordAt(KnownPayload(), 0) + WordSum([33]);
    hide WordSum, Reduced;
    assert Words(KNOWN_IP.src) == 43200 + 256 && Words(KNOWN_IP.dst) == 43200 + 512;
    assert Words(KNOWN_TCP.number) == 256 && Words(KNOWN_TCP.ack) == 512;
    KnownReduced();
  }

  lemma KnownReduced()
    ensures Reduced(201309) == 0x1260
  {
  }

  /** One segment, byte for byte: 192.168.0.1:1234 to 192.168.0.2:80, SYN and ACK, "Hi!". */
  lemma KnownSegment()
    ensures Pseudo(KNOWN_IP, 23) == [192, 168, 0, 1, 192, 168, 0, 2, 0, 6, 0, 23]
    ensures KNOWN_TCP.Bytes([0, 0]) == [4, 210, 0, 80, 0, 0, 0, 1, 0, 0, 0, 2, 80, 18, 32, 0, 0, 0, 0, 0]
    ensures KnownPayload() == [72, 105, 33] && Answer(Covered(KNOWN_IP, KNOWN_TCP, [0, 0], KnownPayload())) == 0xed9f
  {
    hide WordSum, OnesSum, Weight, Answer, Reduced, Covered;
    KnownWeight();
    WeightIs(KNOWN_IP, KNOWN_TCP, KnownPayload());
  }

  class Packet {
    const buf: array<Byte>
    var ptr: nat

    constructor ()
      ensures buf.Length == MAX_PACKET && ptr == 0 && fresh(buf)
    {
      buf := new Byte[MAX_PACKET];
      ptr := 0;
    }

    /** memcpy to ptr, and past it. */
    method Put(bytes: seq<Byte>)
      requires ptr + |bytes| <= buf.Length
      modifies this, buf
      ensures ptr == old(ptr) + |bytes| && buf[..ptr] == old(buf[..ptr]) + bytes
    {
      forall i | 0 <= i < |bytes| {
        buf[ptr + i] := bytes[i];
      }
      ptr := ptr + |bytes|;
    }
  }

  method PutPseudo(p: Packet, ip: IpHeader, length: nat)
    requires p.ptr == 0 && p.buf.Length == MAX_PACKET && ip.Ok() && length < 0x1_0000
    modifies p, p.buf
    ensures p.ptr == 12 && p.buf[..12] == Pseudo(ip, length)
  {
    hide Htons;
    p.Put(ip.src);
    p.Put(ip.dst);
    p.Put([0]);
    p.Put([ip.protocol]);
    p.Put(Htons(length));
  }

  method PutHeader(p: Packet, tcp: TcpHeader)
    requires p.ptr == 12 && p.buf.Length == MAX_PACKET && tcp.Ok()
    modifies p, p.buf
    ensures p.ptr == 32 && p.buf[..32] == old(p.buf[..12]) + tcp.Bytes([0, 0])
  {
    ghost var done := p.buf[..12];
    p.Put(tcp.sport);
    p.Put(tcp.dport);
    p.Put(tcp.number);
    p.Put(tcp.ack);
    assert p.buf[..p.ptr] == done + (tcp.sport + tcp.dport + tcp.number + tcp.ack);
    PutRest(p, tcp);
    assert p.buf[..32] == done + tcp.Bytes([0, 0]);
  }

  method PutRest(p: Packet, tcp: TcpHeader)
    requires p.ptr == 24 && p.buf.Length == MAX_PACKET && tcp.Ok()
    modifies p, p.buf
    ensures p.ptr == 32 && p.buf[..32] == old(p.buf[..24]) + ([16 * tcp.off + tcp.x2, tcp.flags] + tcp.win + [0, 0] + tcp.urp)
  {
    p.Put([16 * tcp.off + tcp.x2]);
    p.Put([tcp.flags]);
    p.Put(tcp.win);
    p.Put([0, 0]);
    p.Put(tcp.urp);
  }

  /** tcp4_checksum. */
  method Tcp4Checksum(ip: IpHeader, tcp: TcpHeader, payload: seq<Byte>) returns (answer: nat)
    requires ip.Ok() && tcp.Ok() && |payload| <= MAX_PAYLOAD
    ensures answer == Answer(Covered(ip, tcp, [0, 0], payload))
    ensures answer == 0xffff - Reduced(Weight(ip, tcp, payload))
  {
    hide OnesSum, Htons, TcpHeader.Bytes, Answer, Weight, Reduced;
    WeightIs(ip, tcp, payload);
    var p := new Packet();
    PutPseudo(p, ip, TCP_HEADER + |payload|);
    PutHeader(p, tcp);
    p.Put(payload);
    ghost var covered := Covered(ip, tcp, [0, 0], payload);
    assert p.buf[..p.ptr] == covered;
    if |payload| % 2 == 1 {
      p.Put([0]);
      PaddingIsNeutral(covered);
    }
    answer := Checksum(p.buf[..p.ptr]);
  }

  /** The receiver's check: a segment sent with the computed checksum sums to zero. */
  lemma SegmentVerifies(ip: IpHeader, tcp: TcpHeader, payload: seq<Byte>)
    requires ip.Ok() && tcp.Ok() && |payload| <= MAX_PAYLOAD
    ensures var sum := Answer(Covered(ip, tcp, [0, 0], payload));
            Answer(Covered(ip, tcp, [sum % 256, sum / 256], payload)) == 0
  {
    hide OnesSum, Htons;
    var s := Covered(ip, tcp, [0, 0], payload);
    var sum := Answer(s);
    assert s[28] == 0 && s[29] == 0;
    StoredIsZero(s, 14);
    assert WithWord(s, 14, sum) == Covered(ip, tcp, [sum % 256, sum / 256], payload);
  }
}
