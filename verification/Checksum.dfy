/**
 * The Internet checksums of the capture writer (demo/alice-bob-demo.js), against the definition of
 * section 1 of RFC 1071: the one's complement of the one's-complement sum of the 16-bit words.
 */
module Checksum {
  import opened Bytes

  type word = x: int | 0 <= x < 0x1_0000

  const ALL_ONES: word := 0xffff

  // ---- JavaScript's 32-bit operators ----

  const TWO31 := 0x8000_0000

  /** The signed 32-bit value to which shifts and bitwise operators convert their operands. */
  function ToInt32(x: int): int {
    (x + TWO31) % U32 - TWO31
  }

  /** A signed shift right by 16. */
  function Shr16(x: int): int {
    ToInt32(x) / 0x1_0000
  }

  /** The low 16 bits. */
  function Low16(x: int): word {
    x % 0x1_0000
  }

  /** The low 16 bits of the complement. */
  function Not16(x: int): word {
    Low16(-x - 1)
  }

  // ---- One's-complement arithmetic ----

  /** 16-bit addition with end-around carry. */
  function Plus(a: word, b: word): word {
    if a + b > 0xffff then a + b - 0xffff else a + b
  }

  function OnesSum(ws: seq<word>): word {
    if ws == [] then 0 else Plus(ws[0], OnesSum(ws[1..]))
  }

  function Total(ws: seq<word>): nat {
    if ws == [] then 0 else ws[0] + Total(ws[1..])
  }

  /** The 16-bit representative of a sum: zero only for zero, otherwise modulo 2^16 - 1 in [1, 0xffff]. */
  function Reduce(n: nat): word {
    if n == 0 then 0 else (n - 1) % 0xffff + 1
  }

  lemma ReducePlus(n: nat, w: word)
    ensures Reduce(w + n) == Plus(w, Reduce(n))
  {}

  /** Summing without wrap-around and folding at the end is the one's-complement sum. */
  lemma {:induction false} OnesSumIsReducedTotal(ws: seq<word>)
    ensures OnesSum(ws) == Reduce(Total(ws))
  {
    if ws != [] {
      OnesSumIsReducedTotal(ws[1..]);
      ReducePlus(Total(ws[1..]), ws[0]);
    }
  }

  lemma {:induction false} TotalBound(ws: seq<word>)
    ensures Total(ws) <= 0xffff * |ws|
  {
    if ws != [] {
      TotalBound(ws[1..]);
    }
  }

  lemma {:induction false} TotalAppend(a: seq<word>, b: seq<word>)
    ensures Total(a + b) == Total(a) + Total(b)
  {
    if a == [] {
      assert a + b == b;
    } else {
      CutFront(a, b, 1);
      TotalAppend(a[1..], b);
    }
  }

  // ---- The folding loop ----

  /** How far the loop is from its end: a negative value is one turn away. */
  function Distance(r: int): nat {
    if r < 0 then 0x1_0000 else if r < 0x1_0000 then 0 else r + 1
  }

  lemma FoldTurn(r: int)
    requires -0x8000 <= r && Shr16(r) != 0
    ensures var n := Low16(r) + Shr16(r);
            -0x8000 <= n < TWO31 && Distance(n) < Distance(r)
            && (n - ToInt32(r)) % 0xffff == 0
            && (ToInt32(r) > 0 ==> n > 0) && (ToInt32(r) < 0 ==> n < 0xffff)
  {
    var x := ToInt32(r);
    var hi, lo := x / 0x1_0000, x % 0x1_0000;
    assert x == 0x1_0000 * hi + lo;
    assert hi + lo - x == 0xffff * -hi;
    assert lo == Low16(r);
  }

  /**
   * When folding gives the one's-complement sum: the multiple of 2^32 that the signed conversion drops
   * vanishes modulo 0xffff, and the converted value is not one that folds to zero.
   */
  predicate FoldsRight(sum: nat) {
    var t := ToInt32(sum);
    (sum - t) % 0xffff == 0 && (sum == 0 || t > 0 || t % 0xffff != 0)
  }

  /** For a 32-bit sum that is so exactly below 2^31. */
  lemma FoldsRightBelow(sum: nat)
    requires sum < U32
    ensures FoldsRight(sum) <==> sum < TWO31
  {}

  /** What the loop has made of the sum: a value congruent to the converted one. */
  ghost predicate Folding(sum: nat, r: int) {
    var t := ToInt32(sum);
    r == sum
    || (-0x8000 <= r < TWO31 && (r - t) % 0xffff == 0 && t != 0 && (t > 0 ==> r > 0) && (t < 0 ==> r < 0xffff))
  }

  lemma FoldingStep(sum: nat, r: int)
    requires -0x8000 <= r && Folding(sum, r) && Shr16(r) != 0
    ensures Folding(sum, Low16(r) + Shr16(r))
  {
    FoldTurn(r);
    Congruent(Low16(r) + Shr16(r), ToInt32(r), ToInt32(sum));
  }

  /**
   * The folding loop: as long as the high half is not zero, it is added to the low half. It always ends;
   * because shifts are signed it is right for some sums only, exactly those that fold right.
   */
  method Fold(sum: nat) returns (r: int)
    ensures 0 <= ToInt32(r) < 0x1_0000
    ensures Low16(r) == Reduce(sum) <==> FoldsRight(sum)
  {
    r := sum;
    while Shr16(r) != 0
      invariant -0x8000 <= r && Folding(sum, r)
      decreases Distance(r)
    {
      FoldTurn(r);
      FoldingStep(sum, r);
      r := Low16(r) + Shr16(r);
    }
    FoldEnd(sum, r);
  }

  lemma ReduceCongruent(n: nat)
    ensures (n - Reduce(n)) % 0xffff == 0
    ensures n > 0 ==> Reduce(n) > 0
  {}

  lemma Congruent(a: int, b: int, c: int)
    requires (a - b) % 0xffff == 0 && (b - c) % 0xffff == 0
    ensures (a - c) % 0xffff == 0
  {}

  lemma NothingAbove(r: int)
    requires Shr16(r) == 0
    ensures ToInt32(r) == Low16(r)
  {}

  /** The value the loop ends with. */
  lemma FoldEnd(sum: nat, r: int)
    requires -0x8000 <= r && Folding(sum, r) && Shr16(r) == 0
    ensures 0 <= ToInt32(r) < 0x1_0000
    ensures Low16(r) == Reduce(sum) <==> FoldsRight(sum)
  {
    NothingAbove(r);
    ReduceCongruent(sum);
    ResiduesDecide(sum, ToInt32(sum), Low16(r), Reduce(sum));
  }

  /** Two 16-bit values, one congruent to `t` and the other to `sum`, neither zero without need. */
  lemma ResiduesDecide(sum: nat, t: int, v: word, w: word)
    requires (v - t) % 0xffff == 0 && (sum - w) % 0xffff == 0
    requires (t > 0 ==> v > 0) && (t < 0 ==> v < 0xffff) && (t == 0 ==> v == 0)
    requires (sum > 0 ==> w > 0) && (sum == 0 ==> t == 0 && w == 0)
    ensures v == w <==> (sum - t) % 0xffff == 0 && (sum == 0 || t > 0 || t % 0xffff != 0)
  {
    var a, b := (v - t) / 0xffff, (sum - w) / 0xffff;
    assert v - t == 0xffff * a && sum - w == 0xffff * b;
    if (sum - t) % 0xffff == 0 {
      var c := (sum - t) / 0xffff;
      assert sum - t == 0xffff * c;
      assert v - w == 0xffff * (a + b - c);
      if t < 0 && t % 0xffff == 0 {
        assert v == 0xffff * (a + t / 0xffff);
      }
    }
  }

  // ---- Words of a buffer, the last odd byte padded with zero ----

  /** `readUInt16BE`, and a last odd byte shifted left by 8. */
  function Word(hi: byte, lo: byte): word {
    var h: int := hi;
    h * 256 + lo
  }

  function Words(s: bytes): (ws: seq<word>)
    ensures |ws| == (|s| + 1) / 2
  {
    if |s| == 0 then []
    else if |s| == 1 then [Word(s[0], 0)]
    else [Word(s[0], s[1])] + Words(s[2..])
  }

  lemma TotalOne(v: word)
    ensures Total([v]) == v
  {
    assert [v][1..] == [];
  }

  /** `writeUInt16BE(v, at)` */
  function With16(s: bytes, at: nat, v: word): (t: bytes)
    requires at + 2 <= |s|
    ensures |t| == |s|
  {
    var hi: byte := v / 256;
    var lo: byte := v % 256;
    s[at := hi][at + 1 := lo]
  }

  /** What the words from byte `i` on add up to, read in place. */
  function SumFrom(s: bytes, i: nat): nat
    decreases |s| - i
  {
    if i >= |s| then 0
    else if i + 1 == |s| then Word(s[i], 0)
    else Word(s[i], s[i + 1]) + SumFrom(s, i + 2)
  }

  lemma {:induction false} SumFromIsTotal(s: bytes, i: nat)
    requires i <= |s|
    ensures SumFrom(s, i) == Total(Words(s[i..]))
    decreases |s| - i
  {
    if i + 1 == |s| {
      assert s[i..] == [s[i]];
      TotalOne(Word(s[i], 0));
    } else if i < |s| {
      var t := s[i..];
      assert t[0] == s[i] && t[1] == s[i + 1] && t[2..] == s[i + 2..];
      var w := [Word(t[0], t[1])];
      assert (w + Words(t[2..]))[1..] == Words(t[2..]);
      SumFromIsTotal(s, i + 2);
    }
  }

  lemma SumIsTotal(s: bytes)
    ensures SumFrom(s, 0) == Total(Words(s))
  {
    SumFromIsTotal(s, 0);
    assert s[0..] == s;
  }

  /** Overwriting an aligned zero field adds exactly the field's value to the sum. */
  lemma {:induction false} SumWithField(s: bytes, at: nat, v: word, i: nat)
    requires at % 2 == 0 && at + 2 <= |s| && s[at] == 0 && s[at + 1] == 0
    requires i % 2 == 0
    ensures SumFrom(With16(s, at, v), i) == SumFrom(s, i) + if i <= at then v else 0
    decreases |s| - i
  {
    if i + 1 < |s| {
      SumWithField(s, at, v, i + 2);
    }
  }

  /** Adding the complement of the folded sum makes the folded sum all ones. */
  lemma ComplementCompletes(total: nat)
    ensures Reduce(total + Not16(Reduce(total))) == ALL_ONES
  {}

  /** The checksum of a buffer whose checksum field is zero: RFC 1071, section 1. */
  function Check(s: bytes): word {
    Not16(OnesSum(Words(s)))
  }

  /** A receiver that sums the buffer again, checksum included, gets all ones. */
  lemma CheckVerifies(s: bytes, at: nat)
    requires at % 2 == 0 && at + 2 <= |s| && s[at] == 0 && s[at + 1] == 0
    ensures OnesSum(Words(With16(s, at, Check(s)))) == ALL_ONES
  {
    OnesSumIsReducedTotal(Words(s));
    OnesSumIsReducedTotal(Words(With16(s, at, Check(s))));
    SumWithField(s, at, Check(s), 0);
    SumIsTotal(s);
    SumIsTotal(With16(s, at, Check(s)));
    ComplementCompletes(Total(Words(s)));
  }

  lemma {:induction false} WordsAppend(s: bytes, t: bytes)
    requires |s| % 2 == 0
    ensures Words(s + t) == Words(s) + Words(t)
    decreases |s|
  {
    if s == [] {
      assert s + t == t;
    } else {
      CutFront(s, t, 2);
      assert (s + t)[0] == s[0] && (s + t)[1] == s[1];
      WordsAppend(s[2..], t);
      Assoc([Word(s[0], s[1])], Words(s[2..]), Words(t));
    }
  }

  lemma Not16Is(x: int)
    ensures Not16(x) == 0xffff - Low16(x)
  {}

  /** What both checksum functions end with: the folded sum, complemented. */
  method Complement(ghost s: bytes, sum: nat) returns (r: word)
    requires sum == Total(Words(s))
    ensures r == Check(s) <==> FoldsRight(sum)
    ensures sum < U32 ==> (r == Check(s) <==> sum < TWO31)
  {
    var folded := Fold(sum);
    OnesSumIsReducedTotal(Words(s));
    Not16Is(folded);
    Not16Is(OnesSum(Words(s)));
    if sum < U32 {
      FoldsRightBelow(sum);
    }
    return Not16(folded);
  }

  /** `ipChecksum`; `None` is the throw of `readUInt16BE` on an odd last byte. */
  method IpChecksum(buf: bytes) returns (r: Option<word>)
    ensures r.None? <==> |buf| % 2 == 1
    ensures r.Some? ==> (r.value == Check(buf) <==> FoldsRight(Total(Words(buf))))
    ensures r.Some? && Total(Words(buf)) < U32 ==> (r.value == Check(buf) <==> Total(Words(buf)) < TWO31)
  {
    var sum, i := 0, 0;
    while i < |buf|
      invariant i <= |buf| && i % 2 == 0
      invariant sum + SumFrom(buf, i) == SumFrom(buf, 0)
    {
      if i + 1 == |buf| {
        return None;
      }
      sum := sum + Word(buf[i], buf[i + 1]);
      i := i + 2;
    }
    SumIsTotal(buf);
    var sum16 := Complement(buf, sum);
    return Some(sum16);
  }

  // ---- The segment ----

  type ip4 = s: bytes | |s| == 4 witness [0, 0, 0, 0]

  function Be16(v: word): (s: bytes)
    ensures |s| == 2
  {
    var hi: byte := v / 256;
    var lo: byte := v % 256;
    [hi, lo]
  }

  /** The pseudo-header of section 3.1 of RFC 9293. */
  function Pseudo(src: ip4, dst: ip4, len: word): (s: bytes)
    ensures |s| == 12
  {
    src + dst + [0, 6] + Be16(len)
  }

  /** The IPv4 header with its checksum field still zero. */
  function IpHeader(src: ip4, dst: ip4, id: word, total: word): (s: bytes)
    ensures |s| == 20
  {
    [0x45, 0] + Be16(total) + Be16(id) + [0x40, 0, 64, 6, 0, 0] + src + dst
  }

  /** The TCP header with its checksum field still zero. */
  function TcpHeader(srcPort: word, dstPort: word, seqNo: int, ackNo: int): (s: bytes)
    ensures |s| == 20
  {
    Be16(srcPort) + Be16(dstPort) + Put32(seqNo % U32) + Put32(ackNo % U32) + [0x50, 0x18, 0xff, 0xff, 0, 0, 0, 0]
  }

  /** The largest payload the 16-bit total length leaves room for. */
  const MAX_SEGMENT_PAYLOAD: nat := 0xffff - 40

  function Segment(src: ip4, dst: ip4, srcPort: word, dstPort: word, seqNo: int, ackNo: int,
                   id: word, payload: bytes): bytes
    requires |payload| <= MAX_SEGMENT_PAYLOAD
  {
    var ip := IpHeader(src, dst, id, 40 + |payload|);
    var tcp := TcpHeader(srcPort, dstPort, seqNo, ackNo);
    var sum := Check(Pseudo(src, dst, 20 + |payload|) + (tcp + payload));
    With16(ip, 10, Check(ip)) + With16(tcp, 16, sum) + payload
  }

  lemma With16Prefix(s: bytes, t: bytes, at: nat, v: word)
    requires at + 2 <= |s|
    ensures With16(s + t, at, v) == With16(s, at, v) + t
  {}

  lemma With16Suffix(s: bytes, t: bytes, at: nat, v: word)
    requires at + 2 <= |t|
    ensures With16(s + t, |s| + at, v) == s + With16(t, at, v)
  {}

  lemma IpPartVerifies(src: ip4, dst: ip4, id: word, total: word)
    ensures var ip := IpHeader(src, dst, id, total);
            var ip' := With16(ip, 10, Check(ip));
            OnesSum(Words(ip')) == ALL_ONES && ip'[2..4] == Be16(total)
  {
    var ip := IpHeader(src, dst, id, total);
    assert ip[10] == 0 && ip[11] == 0 && ip[2..4] == Be16(total);
    CheckVerifies(ip, 10);
  }

  lemma TcpPartVerifies(pseudo: bytes, tcp: bytes, payload: bytes)
    requires |pseudo| == 12 && |tcp| == 20 && tcp[16] == 0 && tcp[17] == 0
    ensures var sum := Check(pseudo + (tcp + payload));
            OnesSum(Words(pseudo + (With16(tcp, 16, sum) + payload))) == ALL_ONES
  {
    var all := pseudo + (tcp + payload);
    With16Prefix(tcp, payload, 16, Check(all));
    With16Suffix(pseudo, tcp + payload, 16, Check(all));
    assert all[28] == (tcp + payload)[16] && all[29] == (tcp + payload)[17];
    CheckVerifies(all, 28);
  }

  /**
   * Every segment verifies at a receiver: the IP header sums to all ones (section 3.1 of RFC 791), and
   * so does the pseudo-header followed by the TCP segment, odd lengths included.
   */
  lemma SegmentVerifies(src: ip4, dst: ip4, srcPort: word, dstPort: word, seqNo: int, ackNo: int,
                        id: word, payload: bytes)
    requires |payload| <= MAX_SEGMENT_PAYLOAD
    ensures var s := Segment(src, dst, srcPort, dstPort, seqNo, ackNo, id, payload);
            && |s| == 40 + |payload| && s[..20][2..4] == Be16(|s|)
            && OnesSum(Words(s[..20])) == ALL_ONES
            && OnesSum(Words(Pseudo(src, dst, |s| - 20) + s[20..])) == ALL_ONES
  {
    var s := Segment(src, dst, srcPort, dstPort, seqNo, ackNo, id, payload);
    var ip := IpHeader(src, dst, id, 40 + |payload|);
    var tcp := TcpHeader(srcPort, dstPort, seqNo, ackNo);
    var pseudo := Pseudo(src, dst, 20 + |payload|);
    var ip' := With16(ip, 10, Check(ip));
    var tcp' := With16(tcp, 16, Check(pseudo + (tcp + payload)));
    Assoc(ip', tcp', payload);
    CutHead(ip', tcp' + payload);
    IpPartVerifies(src, dst, id, 40 + |payload|);
    assert tcp[16] == 0 && tcp[17] == 0;
    TcpPartVerifies(pseudo, tcp, payload);
  }

  /** `writeUInt16BE` on a buffer. */
  method Write16(a: array<byte>, v: word, at: nat)
    requires at + 2 <= a.Length
    modifies a
    ensures a[..] == With16(old(a[..]), at, v)
  {
    a[at] := v / 256;
    a[at + 1] := v % 256;
  }

  function Zeros(n: nat): (s: bytes)
    ensures |s| == n
  {
    seq(n, _ => 0)
  }

  /** Filling a zeroed buffer from the front: the next field goes where the zeros start. */
  lemma Frontier(buf: bytes, done: bytes, k: nat, field: bytes)
    requires buf == done + Zeros(k) && |field| <= k
    ensures buf[..|done|] + field + buf[|done| + |field|..] == done + field + Zeros(k - |field|)
  {}

  /** A buffer whose first bytes are written and the others still zero. */
  ghost predicate Filled(buf: bytes, done: bytes) {
    |done| <= |buf| && buf == done + Zeros(|buf| - |done|)
  }

  lemma NoZeros(buf: bytes, done: bytes)
    requires Filled(buf, done) && |buf| == |done|
    ensures buf == done
  {}

  /** `copy` */
  method Copy(a: array<byte>, src: bytes, at: nat)
    requires at + |src| <= a.Length
    modifies a
    ensures a[..] == old(a[..])[..at] + src + old(a[..])[at + |src|..]
  {
    for i := 0 to |src|
      invariant a[..at] == old(a[..])[..at]
      invariant a[at..at + i] == src[..i]
      invariant a[at + i..] == old(a[..])[at + i..]
    {
      a[at + i] := src[i];
    }
  }

  /** Writes the next field of a buffer filled from the front. */
  method Append(a: array<byte>, ghost done: bytes, field: bytes, at: nat) returns (ghost longer: bytes)
    requires at == |done| && at + |field| <= a.Length && Filled(a[..], done)
    modifies a
    ensures longer == done + field && |longer| == at + |field| && Filled(a[..], longer)
  {
    Frontier(a[..], done, a.Length - at, field);
    Copy(a, field, at);
    longer := done + field;
  }

  method BuildPseudo(src: ip4, dst: ip4, len: word) returns (pseudo: array<byte>)
    ensures fresh(pseudo) && pseudo[..] == Pseudo(src, dst, len)
  {
    pseudo := new byte[12](_ => 0);
    assert pseudo[..] == [] + Zeros(12);
    ghost var done := Append(pseudo, [], src, 0);
    done := Append(pseudo, done, dst, 4);
    pseudo[9] := 6;
    assert pseudo[..] == src + dst + [0, 6] + [0, 0];
    Write16(pseudo, len, 10);
    assert pseudo[..] == src + dst + [0, 6] + Be16(len);
  }

  /** The summing loop of `tcpChecksum`, a last odd byte counted as the high half of a word. */
  method SumWords(all: bytes) returns (sum: nat)
    ensures sum == SumFrom(all, 0)
  {
    sum := 0;
    var i := 0;
    while i + 1 < |all|
      invariant i <= |all| && i % 2 == 0
      invariant sum + SumFrom(all, i) == SumFrom(all, 0)
    {
      sum := sum + Word(all[i], all[i + 1]);
      i := i + 2;
    }
    if |all| % 2 == 1 {
      sum := sum + Word(all[|all| - 1], 0);
    }
  }

  /**
   * `tcpChecksum`: correct exactly when the unfolded sum stays below 2^31. A length over 0xffff makes
   * `writeUInt16BE` throw.
   */
  method TcpChecksum(src: ip4, dst: ip4, tcp: bytes) returns (r: Option<word>)
    ensures r.None? <==> |tcp| > 0xffff
    ensures r.Some? ==>
              var all := Pseudo(src, dst, |tcp|) + tcp;
              r.value == Check(all) <==> Total(Words(all)) < TWO31
  {
    if |tcp| > 0xffff {
      return None;
    }
    var pseudo := BuildPseudo(src, dst, |tcp|);
    var all := pseudo[..] + tcp;
    var sum := SumWords(all);
    SumIsTotal(all);
    TotalBound(Words(all));
    var sum16 := Complement(all, sum);
    return Some(sum16);
  }

  /** The fields of the IPv4 header, its checksum left zero. */
  method BuildIpFields(src: ip4, dst: ip4, id: word, total: word) returns (ip: array<byte>)
    ensures fresh(ip) && ip.Length == 20
    ensures ip[..] == IpHeader(src, dst, id, total)
  {
    ip := new byte[20](_ => 0);
    assert ip[..] == [] + Zeros(20);
    ghost var done := Append(ip, [], [0x45, 0x00], 0);
    done := Append(ip, done, Be16(total), 2);
    done := Append(ip, done, Be16(id), 4);
    done := Append(ip, done, [0x40, 0, 64, 6, 0, 0], 6); // DF, TTL 64, TCP, checksum zero
    done := Append(ip, done, src, 12);
    done := Append(ip, done, dst, 16);
    NoZeros(ip[..], done);
    assert done == IpHeader(src, dst, id, total);
  }

  /** The IPv4 header. */
  method BuildIp(src: ip4, dst: ip4, id: word, total: word) returns (ip: array<byte>)
    ensures fresh(ip) && ip.Length == 20
    ensures var h := IpHeader(src, dst, id, total); ip[..] == With16(h, 10, Check(h))
  {
    ip := BuildIpFields(src, dst, id, total);
    TotalBound(Words(ip[..]));
    var sum := IpChecksum(ip[..]);
    Write16(ip, sum.value, 10);
  }

  /** The TCP header, built field by field, its checksum left zero. */
  method BuildTcp(srcPort: word, dstPort: word, seqNo: int, ackNo: int) returns (tcp: array<byte>)
    ensures fresh(tcp) && tcp.Length == 20
    ensures tcp[..] == TcpHeader(srcPort, dstPort, seqNo, ackNo)
  {
    tcp := new byte[20](_ => 0);
    assert tcp[..] == [] + Zeros(20);
    ghost var done := Append(tcp, [], Be16(srcPort), 0);
    done := Append(tcp, done, Be16(dstPort), 2);
    done := Append(tcp, done, Put32(seqNo % U32), 4);
    done := Append(tcp, done, Put32(ackNo % U32), 8);
    done := Append(tcp, done, [0x50, 0x18, 0xff, 0xff, 0, 0, 0, 0], 12); // offset 5, PSH + ACK, window 65535
    NoZeros(tcp[..], done);
    assert done == TcpHeader(srcPort, dstPort, seqNo, ackNo);
  }

  lemma {:induction false} FullBytesSum(s: bytes, i: nat)
    requires i <= |s| && forall k :: i <= k < |s| ==> s[k] == 0xff
    ensures SumFrom(s, i) >= 0xffff * ((|s| - i) / 2)
    decreases |s| - i
  {
    if i + 1 < |s| {
      FullBytesSum(s, i + 2);
    }
  }

  /**
   * Called on its own with the longest segment it accepts, all bytes 0xff, `tcpChecksum` does sum to
   * 2^31 or more, so its result is wrong; `buildSegment` refuses such a payload first.
   */
  lemma LongestTcpOverflows(src: ip4, dst: ip4, tcp: bytes)
    requires |tcp| == 0xffff && forall k :: 0 <= k < |tcp| ==> tcp[k] == 0xff
    requires src == [0xff, 0xff, 0xff, 0xff] == dst
    ensures TWO31 <= Total(Words(Pseudo(src, dst, |tcp|) + tcp)) < U32
  {
    var all := Pseudo(src, dst, |tcp|) + tcp;
    assert forall k :: 12 <= k < |all| ==> all[k] == tcp[k - 12];
    FullBytesSum(all, 12);
    assert all[..12] == src + dst + [0, 6] + [0xff, 0xff];
    assert SumFrom(all, 10) == 0xffff + SumFrom(all, 12);
    assert SumFrom(all, 8) == 6 + SumFrom(all, 10);
    assert SumFrom(all, 6) == 0xffff + SumFrom(all, 8);
    assert SumFrom(all, 4) == 0xffff + SumFrom(all, 6);
    assert SumFrom(all, 2) == 0xffff + SumFrom(all, 4);
    assert SumFrom(all, 0) == 0xffff + SumFrom(all, 2);
    SumIsTotal(all);
    TotalBound(Words(all));
  }

  /** `buildSegment`, with the random identification as a parameter; `None` is the length-field throw. */
  method BuildSegment(src: ip4, dst: ip4, srcPort: word, dstPort: word, seqNo: int, ackNo: int,
                      id: word, payload: bytes) returns (r: Option<bytes>)
    ensures r.None? <==> |payload| > MAX_SEGMENT_PAYLOAD
    ensures r.Some? ==> r.value == Segment(src, dst, srcPort, dstPort, seqNo, ackNo, id, payload)
  {
    if |payload| > MAX_SEGMENT_PAYLOAD {
      return None;
    }
    var ip := BuildIp(src, dst, id, 40 + |payload|);
    var tcp := BuildTcp(srcPort, dstPort, seqNo, ackNo);
    var full := tcp[..] + payload;
    TotalBound(Words(Pseudo(src, dst, |full|) + full));
    var sum := TcpChecksum(src, dst, full);
    Write16(tcp, sum.value, 16);
    return Some(ip[..] + tcp[..] + payload);
  }
}
