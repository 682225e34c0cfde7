/**
 * What goes over the wire, byte by byte: every field at its offset, integers most significant byte first.
 * An encoder and a decoder that agreed on something else would still round-trip.
 */
module WireLayout {
  import opened Bytes
  import Checksum
  import F = Frame
  import H = Handshake
  import opened StreamCodec
  import P = FileProtocol
  import Packet
  import S = ChunkStore
  import SC = SecureConnection

  // ---- Integers ----

  /** Four bytes, most significant first. */
  lemma NetworkOrder32(n: nat)
    requires n < U32
    ensures Put32(n) == [n / 0x100_0000, n / 0x1_0000 % 0x100, n / 0x100 % 0x100, n % 0x100]
  {
    Widths();
    FourDigits(n);
  }

  lemma FourDigits(n: nat)
    requires n < Pow256(4) == U32
    ensures BigEndian(n, 4) == [n / 0x100_0000, n / 0x1_0000 % 0x100, n / 0x100 % 0x100, n % 0x100]
  {
    Widths();
    var a, b, c := n / 256, n / 256 / 256, n / 256 / 256 / 256;
    assert BigEndian(n, 4) == BigEndian(a, 3) + [n % 256];
    assert BigEndian(a, 3) == BigEndian(b, 2) + [a % 256];
    assert BigEndian(b, 2) == BigEndian(c, 1) + [b % 256];
    assert BigEndian(c, 1) == BigEndian(c / 256, 0) + [c % 256];
    assert BigEndian(c / 256, 0) == [];
    assert c < 256 && b == n / 0x1_0000 && c == n / 0x100_0000;
  }

  lemma TakeDigits(n: nat, w: nat)
    requires 0 < w && n < Pow256(w)
    ensures n / 256 < Pow256(w - 1) && BigEndian(n, w) == BigEndian(n / 256, w - 1) + [n % 256]
  {}

  /** Eight bytes: the upper half, then the lower half. */
  lemma NetworkOrder64(n: nat)
    requires n < U64
    ensures n / U32 < U32 && Put64(n) == Put32(n / U32) + Put32(n % U32)
  {
    Widths();
    var a, b, c, d := n / 0x100, n / 0x1_0000, n / 0x100_0000, n / U32;
    assert a / 256 == b && b / 256 == c && c / 256 == d;
    TakeDigits(n, 8);
    TakeDigits(a, 7);
    TakeDigits(b, 6);
    TakeDigits(c, 5);
    assert Pow256(5) == 256 * Pow256(4) && Pow256(6) == 256 * Pow256(5) && Pow256(7) == 256 * Pow256(6);
    assert BigEndian(n, 8) == BigEndian(d, 4) + [c % 256] + [b % 256] + [a % 256] + [n % 256];
    FourDigits(n % U32);
    LowDigits(n);
  }

  /** The digits of the lower half are those of the whole. */
  lemma LowDigits(n: nat)
    ensures var l := n % U32;
            && l / 0x100_0000 == n / 0x100_0000 % 256 && l / 0x1_0000 % 256 == n / 0x1_0000 % 256
            && l / 0x100 % 256 == n / 0x100 % 256 && l % 256 == n % 256
  {
    var q, l := n / U32, n % U32;
    assert n == U32 * q + l;
    Multiple(0x100_0000 * q, l);
    Shift(0x1_0000 * q, l, 0x100);
    Shift(0x100 * q, l, 0x1_0000);
    Shift(q, l, 0x100_0000);
  }

  /** A multiple of 256 has no lowest digit. */
  lemma Multiple(q: nat, l: nat)
    ensures (256 * q + l) % 256 == l % 256
  {}

  lemma Shift(q: nat, l: nat, d: nat)
    requires d in {0x100, 0x1_0000, 0x100_0000}
    ensures (256 * d * q + l) / d == 256 * q + l / d
    ensures (256 * d * q + l) / d % 256 == l / d % 256
  {
    if d == 0x100 {
      assert (256 * d * q + l) / d == 256 * q + l / d;
    } else if d == 0x1_0000 {
      assert (256 * d * q + l) / d == 256 * q + l / d;
    } else {
      assert (256 * d * q + l) / d == 256 * q + l / d;
    }
    Multiple(q, l / d);
  }

  // ---- Session frames and plaintexts ----

  /** A frame is its length in four bytes and its payload. */
  lemma FrameLayout(payload: bytes)
    requires |payload| < U32
    ensures var n := |payload|;
            F.EncodeFrame(payload)
            == Some([n / 0x100_0000, n / 0x1_0000 % 0x100, n / 0x100 % 0x100, n % 0x100] + payload)
  {
    NetworkOrder32(|payload|);
  }

  /** DATA is 0, its number in eight bytes, and its body; REKEY, its answer and CLOSE are 1, 2 and 3. */
  lemma PlainLayout(num: SC.u64, body: bytes)
    ensures var p := SC.PlainBytes(SC.Data(num, body));
            |p| == 9 + |body| && p[0] == 0 && p[1..5] == Put32(num / U32) && p[5..9] == Put32(num % U32) && p[9..] == body
    ensures SC.PlainBytes(SC.Rekey) == [1] && SC.PlainBytes(SC.RekeyAck) == [2] && SC.PlainBytes(SC.Close) == [3]
  {
    NetworkOrder64(num);
    DataParts(Put32(num / U32), Put32(num % U32), body, SC.PlainBytes(SC.Data(num, body)));
  }

  lemma DataParts(high: bytes, low: bytes, body: bytes, p: bytes)
    requires |high| == 4 && |low| == 4 && p == [0] + ((high + low) + body)
    ensures |p| == 9 + |body| && p[0] == 0 && p[1..5] == high && p[5..9] == low && p[9..] == body
  {}

  /** A sealed message is the nonce and the ciphertext of the whole plaintext under that nonce. */
  lemma SealedLayout(k: H.Crypto, key: bytes, nonce: H.Nonce, plain: bytes)
    ensures var s := H.SealUnder(k, key, nonce, plain);
            s[..24] == nonce && s[24..] == k.encrypt(key, nonce, plain)
  {}

  // ---- Handshake ----

  /** MSG1: ephemeral key, identity, and the identity's signature of that key. */
  lemma Message1Layout(k: H.Crypto, i: H.Secrets)
    requires H.Laws(k)
    ensures var m, e := H.Message1(k, i), k.pub(i.eph);
            |m| == 128 && m[..32] == e && m[32..64] == k.idOf(i.id) && m[64..] == k.sign(i.id, e)
  {
    H.FieldsOfMessage(k.pub(i.eph), k.idOf(i.id), k.sign(i.id, k.pub(i.eph)));
  }

  /** MSG2: the same of the responder, whose signature covers both ephemeral keys, its own first. */
  lemma Message2Layout(k: H.Crypto, i: H.Secrets, r: H.Secrets)
    requires H.Laws(k)
    ensures var m, e, f := H.Message2(k, i, r), k.pub(r.eph), k.pub(i.eph);
            |m| == 128 && m[..32] == e && m[32..64] == k.idOf(r.id) && m[64..] == k.sign(r.id, e + f)
    ensures H.Message3(k, i, r) == k.sign(i.id, k.pub(i.eph) + k.pub(r.eph))
  {
    H.FieldsOfMessage(k.pub(r.eph), k.idOf(r.id), k.sign(r.id, k.pub(r.eph) + k.pub(i.eph)));
  }

  // ---- Messages of the file transfer ----

  /** Type, 32-byte identifier, index in four bytes, then digest, signature and data. */
  lemma ChunkDataLayout(j: P.Json, f: bytes, i: nat, h: bytes, s: bytes, d: bytes)
    requires |f| == 32 && i < U32 && |h| == 32 && |s| == 64
    ensures var m := P.Encode(j, P.ChunkData(f, i, h, s, d));
            && m.Some? && |m.value| == 133 + |d| && m.value[0] == 0x12 && m.value[1..33] == f
            && m.value[33..37] == [i / 0x100_0000, i / 0x1_0000 % 0x100, i / 0x100 % 0x100, i % 0x100]
            && m.value[37..69] == h && m.value[69..133] == s && m.value[133..] == d
  {
    NetworkOrder32(i);
  }

  /** The other messages. */
  lemma MessageLayout(j: P.Json, m: P.Message)
    requires P.WellFormed(m) && !m.ChunkData?
    ensures P.Encode(j, m).Some?
    ensures var w := P.Encode(j, m).value;
            match m
            case Manifest(x) => w == [0x10] + j.text(x)
            case ChunkReq(f, i) => |w| == 37 && w[0] == 0x11 && w[1..33] == f && w[33..] == Put32(i)
            case Ack(i, st) => |w| == 6 && w[0] == 0x13 && w[1..5] == Put32(i) && w[5] == st.value
            case Have(f, b) => w[0] == 0x14 && w[1..33] == f && w[33..] == b
            case HavePiece(f, i) => |w| == 37 && w[0] == 0x15 && w[1..33] == f && w[33..] == Put32(i)
            case ChunkData(_, _, _, _, _) => true
  {}

  /**
   * Exactly these are read as messages: MANIFEST whose text parses, HAVE, HAVE_PIECE, CHUNK_REQ and CHUNK_DATA
   * as far as their index, an ACK as far as its index. Anything else is a throw.
   */
  lemma ReadsExactly(j: P.Json, buf: bytes)
    ensures P.Decode(j, buf).Some? <==>
              buf != [] && (|| (buf[0] == 0x10 && j.parse(buf[1..]).Some?) || buf[0] == 0x14
                            || (buf[0] in {0x11, 0x12, 0x15} && |buf| >= 37) || (buf[0] == 0x13 && |buf| >= 5))
  {}

  /** And so are their fields read. */
  lemma ReadsFields(j: P.Json, buf: bytes)
    requires P.Decode(j, buf).Some?
    ensures var m := P.Decode(j, buf).value;
            && (buf[0] == 0x10 ==> Some(m) == match j.parse(buf[1..]) { case Some(x) => Some(P.Manifest(x)) case None => None })
            && (buf[0] == 0x11 ==> m == P.ChunkReq(buf[1..33], Get32(buf, 33)))
            && (buf[0] == 0x12 && |buf| >= 133 ==>
                  m == P.ChunkData(buf[1..33], Get32(buf, 33), buf[37..69], buf[69..133], buf[133..]))
            && (buf[0] == 0x13 ==> m == P.Ack(Get32(buf, 1), if |buf| > 5 then Some(buf[5]) else None))
            && (buf[0] == 0x14 && |buf| >= 33 ==> m == P.Have(buf[1..33], buf[33..]))
            && (buf[0] == 0x15 ==> m == P.HavePiece(buf[1..33], Get32(buf, 33)))
  {
    var p := buf[1..];
    if |buf| >= 37 {
      assert p[32..36] == buf[33..37];
    }
    if |buf| >= 5 {
      assert p[0..4] == buf[1..5];
    }
    if |buf| >= 133 {
      assert p[36..68] == buf[37..69] && p[68..132] == buf[69..133] && p[132..] == buf[133..];
    }
  }

  /** Chunk `i` is bit `i % 8` of byte `i / 8` of a bitfield, counted from the most significant. */
  lemma BitLayout(bf: S.bits, i: nat)
    ensures S.TestBit(bf, i) <==> i / 8 < |bf| && bf[i / 8] & (0x80 as bv8 >> (i % 8)) != 0
  {
    ShiftedMask(i % 8);
  }

  lemma ShiftedMask(r: nat)
    requires r < 8
    ensures (1 as bv8 << (7 - r)) == (0x80 as bv8 >> r)
  {
    match r
    case 0 => case 1 => case 2 => case 3 => case 4 => case 5 => case 6 => case 7 =>
  }

  // ---- Packets ----

  /** A packet: magic, type, node, length of the payload, payload, signature of all that, HMAC of all that. */
  lemma PacketLayout(c: Packet.Suite, id: Packet.Identity, kind: byte, payload: bytes)
    requires Packet.Sound(c, id) && |payload| <= 0x10_0000
    ensures var b, n := Packet.BuildPacket(c, id, kind, payload), |payload|;
            && b.Some? && |b.value| == 137 + n
            && b.value[..4] == [0x41, 0x54, 0x54, 0x50] && b.value[4] == kind && b.value[5..37] == id.nodeId
            && b.value[37..41] == [n / 0x100_0000, n / 0x1_0000 % 0x100, n / 0x100 % 0x100, n % 0x100]
            && b.value[41..41 + n] == payload
            && b.value[41 + n..105 + n] == id.sign(b.value[..41 + n])
            && b.value[105 + n..] == c.hmac(b.value[..105 + n])
  {
    var h := Packet.Header(kind, id.nodeId, |payload|);
    var body := h + payload;
    var signed := body + id.sign(body);
    NetworkOrder32(|payload|);
    CutHead(body, id.sign(body));
    CutHead(signed, c.hmac(signed));
    Packet.Fields(h, payload, id.sign(body), c.hmac(signed));
    assert (body + id.sign(body) + c.hmac(signed))[..|body|] == body;
  }

  /** Why a packet stream is refused: the first 41 bytes decide, magic first, then a payload over 1 MiB. */
  lemma HeaderRefusals(b: bytes)
    ensures var v := Next(Packets, b);
            && (v == Need <==> |b| < 41 || (b[..4] == [0x41, 0x54, 0x54, 0x50] && Get32(b, 37) <= 0x10_0000 && |b| < 137 + Get32(b, 37)))
            && (v == Bad(InvalidMagic) <==> |b| >= 41 && b[..4] != [0x41, 0x54, 0x54, 0x50])
            && (v == Bad(PayloadTooLarge) <==> |b| >= 41 && b[..4] == [0x41, 0x54, 0x54, 0x50] && Get32(b, 37) > 0x10_0000)
            && (v.Take? ==> v.size == 137 + Get32(b, 37))
  {}

  /** A frame stream is refused only for a length over the limit. */
  lemma LengthRefusals(max: nat, b: bytes)
    ensures var v := Next(Frames(max), b);
            && (v == Need <==> |b| < 4 || (Get32(b, 0) <= max && |b| < 4 + Get32(b, 0)))
            && (v.Bad? <==> |b| >= 4 && Get32(b, 0) > max)
            && (v.Bad? ==> v.why == FrameTooLarge) && (v.Take? ==> v.size == 4 + Get32(b, 0))
  {}

  /**
   * Exactly these packets pass the integrity check: long enough, beginning with the magic, and ending in the
   * HMAC of everything before it.
   */
  lemma IntegrityExactly(c: Packet.Suite, b: bytes)
    ensures Packet.VerifyPacket(c, b)
            <==> |b| >= 137 && b[..4] == [0x41, 0x54, 0x54, 0x50] && b[|b| - 32..] == c.hmac(b[..|b| - 32])
  {}

  /** So no change of the last 32 bytes alone goes unnoticed. */
  lemma TagChangeRefused(c: Packet.Suite, a: bytes, b: bytes)
    requires Packet.VerifyPacket(c, a) && |a| == |b| && a[..|a| - 32] == b[..|a| - 32] && a != b
    ensures !Packet.VerifyPacket(c, b)
  {
    assert a == a[..|a| - 32] + a[|a| - 32..] && b == b[..|b| - 32] + b[|b| - 32..];
  }

  /** The signature checked is of the packet's own bytes up to the end of its payload, under the node it names. */
  lemma SignatureExactly(c: Packet.Suite, b: bytes)
    requires Packet.VerifyPacket(c, b) && Packet.ParsePacket(b).Some?
    ensures var n := Get32(b, 37);
            && 137 + n <= |b|
            && (Packet.VerifySignature(c, Packet.ParsePacket(b).value)
                <==> c.verify(b[41 + n..105 + n], b[..41 + n], b[5..37]))
  {
    var n := Get32(b, 37);
    PutGet32(b, 37);
    assert Packet.Header(b[4], b[5..37], n) + b[41..41 + n] == b[..41 + n];
  }

  lemma {:induction false} ToNatRoundTrip(s: bytes)
    ensures ToNat(s) < Pow256(|s|) && BigEndian(ToNat(s), |s|) == s
  {
    ToNatBound(s);
    if s != [] {
      ToNatRoundTrip(s[..|s| - 1]);
    }
  }

  lemma PutGet32(b: bytes, at: nat)
    requires at + 4 <= |b|
    ensures Get32(b, at) < U32 && Put32(Get32(b, at)) == b[at..at + 4]
  {
    Widths();
    ToNatRoundTrip(b[at..at + 4]);
  }

  /** The envelope: eight bytes of milliseconds, sixteen of nonce, then the data. */
  lemma EnvelopeLayout(timestamp: nat, nonce: bytes, data: bytes)
    requires timestamp < U64 && |nonce| == 16
    ensures var w := Packet.WrapPayload(timestamp, nonce, data);
            && |w| == 24 + |data| && w[..4] == Put32(timestamp / U32) && w[4..8] == Put32(timestamp % U32)
            && w[8..24] == nonce && w[24..] == data
  {
    NetworkOrder64(timestamp);
  }

  /** Reading it throws exactly on fewer than 24 bytes; the number read becomes a double. */
  lemma EnvelopeReads(payload: bytes)
    ensures Packet.UnwrapPayload(payload).None? <==> |payload| < 24
    ensures |payload| >= 24 ==>
              Packet.UnwrapPayload(payload)
              == Some(Packet.Envelope(Packet.ToDouble(Get64(payload, 0)), payload[8..24], payload[24..]))
  {}

  // ---- The captured segment ----

  /** The two-byte field at offset `at`. */
  function Get16(s: bytes, at: nat): int
    requires at + 2 <= |s|
  {
    var high: int := s[at];
    256 * high + s[at + 1]
  }

  /**
   * The fields of a segment where section 3.1 of RFC 791 and section 3.1 of RFC 9293 put them: an IPv4 header
   * of 20 bytes for TCP, not to be fragmented, with the sender's address before the receiver's; a TCP header
   * of 20 bytes, PSH and ACK set, the largest window; the payload.
   */
  lemma SegmentLayout(src: Checksum.ip4, dst: Checksum.ip4, srcPort: Checksum.word, dstPort: Checksum.word,
                      seqNo: int, ackNo: int, id: Checksum.word, payload: bytes)
    requires |payload| <= 0xffff - 40
    ensures var s := Checksum.Segment(src, dst, srcPort, dstPort, seqNo, ackNo, id, payload);
            && |s| == 40 + |payload|
            && s[0] == 0x45 && s[1] == 0 && Get16(s, 2) == |s| && Get16(s, 4) == id
            && s[6] == 0x40 && s[7] == 0 && s[8] == 64 && s[9] == 6 && s[12..16] == src && s[16..20] == dst
            && Get16(s, 20) == srcPort && Get16(s, 22) == dstPort
            && s[24..28] == Put32(seqNo % U32) && s[28..32] == Put32(ackNo % U32)
            && s[32] == 0x50 && s[33] == 0x18 && s[34] == 0xff && s[35] == 0xff && s[38] == 0 && s[39] == 0
            && s[40..] == payload
  {
    var ip := Checksum.IpHeader(src, dst, id, 40 + |payload|);
    var tcp := Checksum.TcpHeader(srcPort, dstPort, seqNo, ackNo);
    IpFields(src, dst, id, 40 + |payload|);
    TcpFields(srcPort, dstPort, seqNo, ackNo);
    var sum := Checksum.Check(Checksum.Pseudo(src, dst, 20 + |payload|) + (tcp + payload));
    var ip' := Checksum.With16(ip, 10, Checksum.Check(ip));
    var tcp' := Checksum.With16(tcp, 16, sum);
    CutHead(ip' + tcp', payload);
    Parts(ip', tcp', payload);
  }

  /** The pseudo-header of the TCP checksum: both addresses, zero, the protocol, the length of the segment. */
  lemma PseudoLayout(src: Checksum.ip4, dst: Checksum.ip4, len: Checksum.word)
    ensures var p := Checksum.Pseudo(src, dst, len);
            |p| == 12 && p[..4] == src && p[4..8] == dst && p[8] == 0 && p[9] == 6 && Get16(p, 10) == len
  {}

  lemma IpFields(src: Checksum.ip4, dst: Checksum.ip4, id: Checksum.word, total: Checksum.word)
    ensures var s := Checksum.IpHeader(src, dst, id, total);
            && s[0] == 0x45 && s[1] == 0 && Get16(s, 2) == total && Get16(s, 4) == id
            && s[6] == 0x40 && s[7] == 0 && s[8] == 64 && s[9] == 6 && s[12..16] == src && s[16..20] == dst
  {}

  lemma TcpFields(srcPort: Checksum.word, dstPort: Checksum.word, seqNo: int, ackNo: int)
    ensures var s := Checksum.TcpHeader(srcPort, dstPort, seqNo, ackNo);
            && Get16(s, 0) == srcPort && Get16(s, 2) == dstPort
            && s[4..8] == Put32(seqNo % U32) && s[8..12] == Put32(ackNo % U32)
            && s[12] == 0x50 && s[13] == 0x18 && s[14] == 0xff && s[15] == 0xff && s[18] == 0 && s[19] == 0
  {}

  lemma Parts(a: bytes, b: bytes, c: bytes)
    requires |a| == 20 && |b| == 20
    ensures var s := a + b + c;
            && (forall i :: 0 <= i < 20 ==> s[i] == a[i]) && (forall i :: 20 <= i < 40 ==> s[i] == b[i - 20])
            && Get16(s, 2) == Get16(a, 2) && Get16(s, 4) == Get16(a, 4) && Get16(s, 20) == Get16(b, 0) && Get16(s, 22) == Get16(b, 2)
            && s[12..16] == a[12..16] && s[16..20] == a[16..20] && s[24..28] == b[4..8] && s[28..32] == b[8..12]
  {}
}
