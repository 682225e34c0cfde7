/** Signed packets (src/protocol/packet.js) and their anti-replay envelope (src/protocol/message.js). */
module Packet {
  import opened Arithmetic
  import opened Bytes
  import opened StreamCodec

  const MIN_PACKET_LEN: nat := HEADER_LEN + SIGNATURE_LEN + HMAC_LEN
  const MAX_BUFFER_SIZE: nat := 0x50_0000

  /** HMAC-SHA256 under the shared key, and Ed25519 verification of (signature, message, public key). */
  datatype Suite = Suite(hmac: bytes -> bytes, verify: (bytes, bytes, bytes) -> bool)

  /** A node's public key and its signing operation. */
  datatype Identity = Identity(nodeId: bytes, sign: bytes -> bytes)

  /** The only facts used about the primitives: output lengths, and that one's own signatures verify. */
  ghost predicate Sound(c: Suite, id: Identity) {
    && |id.nodeId| == 32
    && (forall m: bytes :: |c.hmac(m)| == HMAC_LEN)
    && (forall m: bytes :: |id.sign(m)| == SIGNATURE_LEN)
    && (forall m: bytes :: c.verify(id.sign(m), m, id.nodeId))
  }

  /** The facts are consistent: some primitives satisfy them. */
  lemma SoundIsSatisfiable()
    ensures exists c: Suite, id: Identity :: Sound(c, id)
  {
    var z32: bytes := seq(32, _ => 0);
    var z64: bytes := seq(64, _ => 0);
    var c := Suite(m => z32, (s, m, k) => true);
    var id := Identity(z32, m => z64);
    assert Sound(c, id);
  }

  function Header(kind: byte, nodeId: bytes, payloadLen: nat): (h: bytes)
    requires payloadLen < U32
  {
    MAGIC + [kind] + nodeId + Put32(payloadLen)
  }

  /** `buildPacket`; `None` is the throw on a payload over the limit. */
  function BuildPacket(c: Suite, id: Identity, kind: byte, payload: bytes): Option<bytes> {
    if |payload| > MAX_PAYLOAD_SIZE then None
    else
      var body := Header(kind, id.nodeId, |payload|) + payload;
      var signed := body + id.sign(body);
      Some(signed + c.hmac(signed))
  }

  datatype Parsed = Parsed(magic: bytes, kind: byte, nodeId: bytes, payloadLen: nat, payload: bytes, signature: bytes)

  /** `parsePacket`; `None` is either of its throws. */
  function ParsePacket(b: bytes): Option<Parsed> {
    if |b| < MIN_PACKET_LEN then None
    else
      var len := Get32(b, 37);
      if len > MAX_PAYLOAD_SIZE || HEADER_LEN + len + SIGNATURE_LEN + HMAC_LEN > |b| then None
      else
        var end := HEADER_LEN + len;
        Some(Parsed(b[0..4], b[4], b[5..37], len, b[HEADER_LEN..end], b[end..end + SIGNATURE_LEN]))
  }

  /** `verifyPacket` */
  predicate VerifyPacket(c: Suite, b: bytes) {
    && |b| >= MIN_PACKET_LEN
    && b[0..4] == MAGIC
    && c.hmac(b[..|b| - HMAC_LEN]) == b[|b| - HMAC_LEN..]
  }

  /** `verifySignature`: rebuilds the signed bytes from the parsed fields. */
  predicate VerifySignature(c: Suite, p: Parsed)
    requires p.payloadLen < U32
  {
    c.verify(p.signature, Header(p.kind, p.nodeId, p.payloadLen) + p.payload, p.nodeId)
  }

  lemma Fields(h: bytes, payload: bytes, sig: bytes, mac: bytes)
    requires |h| == HEADER_LEN && |sig| == SIGNATURE_LEN && |mac| == HMAC_LEN
    ensures var b := h + payload + sig + mac;
            var end := HEADER_LEN + |payload|;
            && |b| == end + SIGNATURE_LEN + HMAC_LEN
            && b[..HEADER_LEN] == h && b[HEADER_LEN..end] == payload
            && b[end..end + SIGNATURE_LEN] == sig
            && b[..|b| - HMAC_LEN] == h + payload + sig && b[|b| - HMAC_LEN..] == mac
  {}

  lemma HeaderFields(kind: byte, nodeId: bytes, len: nat, rest: bytes)
    requires |nodeId| == 32 && len < U32
    ensures var b := Header(kind, nodeId, len) + rest;
            |Header(kind, nodeId, len)| == HEADER_LEN && b[0..4] == MAGIC && b[4] == kind && b[5..37] == nodeId && Get32(b, 37) == len
  {
    var b := Header(kind, nodeId, len) + rest;
    assert b[37..41] == Put32(len);
  }

  /** A built packet is one whole unit, passes both checks, and parses back to its fields. */
  lemma BuiltPacket(c: Suite, id: Identity, kind: byte, payload: bytes)
    requires Sound(c, id) && |payload| <= MAX_PAYLOAD_SIZE
    ensures var b := BuildPacket(c, id, kind, payload).value;
            && Next(Packets, b) == Take(|b|)
            && |b| == MIN_PACKET_LEN + |payload|
            && VerifyPacket(c, b)
            && ParsePacket(b).Some?
            && (var p := ParsePacket(b).value;
                p.kind == kind && p.nodeId == id.nodeId && p.payload == payload && VerifySignature(c, p))
  {
    var b := BuildPacket(c, id, kind, payload).value;
    var h := Header(kind, id.nodeId, |payload|);
    var sig := id.sign(h + payload);
    var mac := c.hmac(h + payload + sig);
    HeaderFields(kind, id.nodeId, |payload|, payload + sig + mac);
    assert h + (payload + sig + mac) == h + payload + sig + mac;
    Fields(h, payload, sig, mac);
  }

  datatype Message = Message(kind: byte, payload: bytes)

  function BuildAll(c: Suite, id: Identity, ms: seq<Message>): (r: seq<bytes>)
    requires forall i :: 0 <= i < |ms| ==> |ms[i].payload| <= MAX_PAYLOAD_SIZE
  {
    seq(|ms|, i requires 0 <= i < |ms| => BuildPacket(c, id, ms[i].kind, ms[i].payload).value)
  }

  /** Whatever way a concatenation of built packets is cut, exactly those packets are extracted. */
  lemma PacketStreamRoundTrip(c: Suite, id: Identity, ms: seq<Message>, chunks: seq<bytes>)
    requires Sound(c, id)
    requires forall i :: 0 <= i < |ms| ==> |ms[i].payload| <= MAX_PAYLOAD_SIZE
    requires Concat(chunks) == Concat(BuildAll(c, id, ms))
    ensures FeedAll(Packets, [], chunks) == Feed(BuildAll(c, id, ms), [], false)
  {
    var us := BuildAll(c, id, ms);
    forall i | 0 <= i < |us|
      ensures Next(Packets, us[i]) == Take(|us[i]|)
    {
      BuiltPacket(c, id, ms[i].kind, ms[i].payload);
    }
    DecodeConcat(Packets, us, []);
    assert Concat(us) + [] == Concat(us) == [] + Concat(chunks);
    assert us + Decode(Packets, []).units == us;
    FeedIsDecode(Packets, [], chunks);
  }

  /** No stream makes the packet-size test fire: the payload test comes first and is stricter. */
  lemma PacketSizeUnreachable(b: bytes)
    ensures Next(Packets, b) != Bad(PacketTooLarge)
  {}

  /** Everything extracted can be parsed, and its parts cover it exactly. */
  lemma ExtractedParses(b: bytes, i: nat)
    requires i < |Decode(Packets, b).units|
    ensures var u := Decode(Packets, b).units[i];
            ParsePacket(u).Some? && |u| == MIN_PACKET_LEN + ParsePacket(u).value.payloadLen
  {
    DecodeUnits(Packets, b, i);
  }

  /** The largest number of bytes that can wait for the rest of a packet. */
  const MAX_LEFTOVER: nat := MAX_PAYLOAD_SIZE + MIN_PACKET_LEN - 1

  lemma NeedBound(b: bytes)
    requires Next(Packets, b) == Need
    ensures |b| <= MAX_LEFTOVER
  {}

  /** The bound is reached by a packet of the largest payload that lacks its last byte. */
  lemma NeedBoundTight(c: Suite, id: Identity, kind: byte, payload: bytes)
    requires Sound(c, id) && |payload| == MAX_PAYLOAD_SIZE
    ensures var b := BuildPacket(c, id, kind, payload).value;
            Next(Packets, b[..|b| - 1]) == Need && |b[..|b| - 1]| == MAX_LEFTOVER
  {
    BuiltPacket(c, id, kind, payload);
    var b := BuildPacket(c, id, kind, payload).value;
    assert b[..|b| - 1][0..4] == b[0..4] && b[..|b| - 1][37..41] == b[37..41];
  }

  /** What stays in the buffer between chunks is bounded, so small enough chunks never overflow it. */
  lemma BufferBound(chunks: seq<bytes>, next: bytes)
    requires !FeedAll(Packets, [], chunks).failed
    ensures |FeedAll(Packets, [], chunks).buf| <= MAX_LEFTOVER
    ensures |next| <= MAX_BUFFER_SIZE - MAX_LEFTOVER ==>
              |FeedAll(Packets, [], chunks).buf + next| <= MAX_BUFFER_SIZE
  {
    FeedIsDecode(Packets, [], chunks);
    DecodeStops(Packets, [] + Concat(chunks));
    NeedBound(FeedAll(Packets, [], chunks).buf);
  }

  datatype Extracted = Extracted(packets: seq<bytes>, remaining: bytes)

  /** The packets taken so far and those still to come are those of the whole buffer. */
  ghost predicate Progress(buffer: bytes, packets: seq<bytes>, offset: nat) {
    && offset <= |buffer|
    && var d := Decode(Packets, buffer[offset..]);
       Decode(Packets, buffer) == Decoded(packets + d.units, d.rest, d.failed)
  }

  lemma ProgressTakes(buffer: bytes, packets: seq<bytes>, offset: nat, n: nat)
    requires Progress(buffer, packets, offset) && Next(Packets, buffer[offset..]) == Take(n)
    ensures offset + n <= |buffer| && Progress(buffer, packets + [buffer[offset..offset + n]], offset + n)
  {
    FrontUnit(buffer, offset, n);
    Assoc(packets, [buffer[offset..offset + n]], Decode(Packets, buffer[offset + n..]).units);
  }

  lemma ProgressEnds(buffer: bytes, packets: seq<bytes>, offset: nat)
    requires Progress(buffer, packets, offset) && Next(Packets, buffer[offset..]) == Need
    ensures Decode(Packets, buffer) == Decoded(packets, buffer[offset..], false)
  {
    assert packets + [] == packets;
  }

  /** `extractPackets`; `None` is any of its throws. */
  method ExtractPackets(buffer: bytes) returns (r: Option<Extracted>)
    ensures var d := Decode(Packets, buffer);
            r == if d.failed then None else Some(Extracted(d.units, d.rest))
  {
    var packets: seq<bytes> := [];
    var offset := 0;
    assert buffer[0..] == buffer;
    while offset + HEADER_LEN <= |buffer|
      invariant Progress(buffer, packets, offset)
      decreases |buffer| - offset
    {
      Front(buffer, offset);
      if buffer[offset..offset + 4] != MAGIC {
        return None;
      }
      var payloadLen := Get32(buffer, offset + 37);
      if payloadLen > MAX_PAYLOAD_SIZE {
        return None;
      }
      var totalLength := HEADER_LEN + payloadLen + SIGNATURE_LEN + HMAC_LEN;
      if totalLength > MAX_PACKET_SIZE {
        return None;
      }
      if offset + totalLength > |buffer| {
        break;
      }
      ProgressTakes(buffer, packets, offset, totalLength);
      packets := packets + [buffer[offset..offset + totalLength]];
      offset := offset + totalLength;
    }
    ProgressEnds(buffer, packets, offset);
    return Some(Extracted(packets, buffer[offset..]));
  }

  lemma Front(b: bytes, offset: nat)
    requires offset + HEADER_LEN <= |b|
    ensures b[offset..][0..4] == b[offset..offset + 4]
    ensures Get32(b[offset..], 37) == Get32(b, offset + 37)
  {
    assert b[offset..][37..41] == b[offset + 37..offset + 41];
  }

  lemma FrontUnit(b: bytes, offset: nat, n: nat)
    requires offset + n <= |b|
    ensures b[offset..][..n] == b[offset..offset + n]
    ensures b[offset..][n..] == b[offset + n..]
  {}

  // ---- The envelope at the front of a payload ----

  const REPLAY_ENVELOPE_LEN: nat := 24

  datatype Envelope = Envelope(timestamp: nat, nonce: bytes, data: bytes)

  /** `wrapPayload` at a given time and with a given nonce. */
  function WrapPayload(timestamp: nat, nonce: bytes, data: bytes): bytes
    requires timestamp < U64
  {
    Put64(timestamp) + nonce + data
  }

  // ---- Timestamps pass through a double ----

  const TWO53: nat := 0x20_0000_0000_0000

  function Pow2(e: nat): (p: nat)
    ensures p > 0
  {
    if e == 0 then 1 else 2 * Pow2(e - 1)
  }

  /** How many low bits of `n` a 53-bit significand cannot hold. */
  function Excess(n: nat): (e: nat)
    ensures n < TWO53 * Pow2(e)
    ensures e > 0 ==> n >= TWO53 * Pow2(e - 1)
  {
    if n < TWO53 then 0 else 1 + Excess(n / 2)
  }

  /** `q` units, or one more for a remainder above half a unit; a tie goes to the even side. */
  function Nearest(q: nat, r: nat, unit: nat): nat {
    (if 2 * r > unit || (2 * r == unit && q % 2 == 1) then q + 1 else q) * unit
  }

  /** The double nearest to an integer. */
  function ToDouble(n: nat): nat {
    var unit := Pow2(Excess(n));
    Nearest(n / unit, n % unit, unit)
  }

  lemma NearestIs(n: nat, q: nat, r: nat, unit: nat)
    requires n == q * unit + r && r < unit
    ensures Nearest(q, r, unit) == n <==> r == 0
  {
    assert (q + 1) * unit == q * unit + unit;
  }

  /** An integer survives exactly when the bits beyond the significand are zero, as below 2^53. */
  lemma DoubleExact(n: nat)
    ensures ToDouble(n) == n <==> n % Pow2(Excess(n)) == 0
    ensures n < TWO53 ==> n % Pow2(Excess(n)) == 0
  {
    var q, d := Quotient(n, Pow2(Excess(n)));
    NearestIs(n, q, d, Pow2(Excess(n)));
    NoExcess(n);
  }

  lemma NoExcess(n: nat)
    ensures n < TWO53 ==> Excess(n) == 0 && n % Pow2(Excess(n)) == 0
  {}

  /** `m` units are nearest to `n`, and of two equally near numbers of units `m` is the even one. */
  predicate NearestUnits(n: nat, unit: nat, m: nat) {
    && 2 * (m * unit - n) <= unit && 2 * (n - m * unit) <= unit
    && (2 * (m * unit - n) == unit || 2 * (n - m * unit) == unit ==> m % 2 == 0)
  }

  /** Rounding to nearest, ties to even, of IEEE 754. */
  lemma DoubleNearest(n: nat) returns (m: nat)
    ensures ToDouble(n) == m * Pow2(Excess(n)) && NearestUnits(n, Pow2(Excess(n)), m)
  {
    var q, d := Quotient(n, Pow2(Excess(n)));
    m := NearestIsMultiple(n, q, d, Pow2(Excess(n)));
  }

  lemma Quotient(n: nat, unit: nat) returns (q: nat, d: nat)
    requires unit > 0
    ensures q == n / unit && d == n % unit && n == q * unit + d && d < unit
  {
    q, d := n / unit, n % unit;
    QuotientBounds(n, unit);
  }

  lemma NearestIsMultiple(n: nat, q: nat, d: nat, unit: nat) returns (m: nat)
    requires n == q * unit + d && d < unit
    ensures Nearest(q, d, unit) == m * unit && NearestUnits(n, unit, m)
  {
    assert (q + 1) * unit == q * unit + unit;
    m := if 2 * d > unit || (2 * d == unit && q % 2 == 1) then q + 1 else q;
  }

  /** `unwrapPayload`; `None` is the throw on a payload too short for the envelope. */
  function UnwrapPayload(payload: bytes): Option<Envelope> {
    if |payload| < REPLAY_ENVELOPE_LEN then None
    else Some(Envelope(ToDouble(ToNat(payload[0..8])), payload[8..24], payload[24..]))
  }

  lemma EnvelopeRoundTrip(timestamp: nat, nonce: bytes, data: bytes)
    requires timestamp < U64 && |nonce| == 16
    ensures UnwrapPayload(WrapPayload(timestamp, nonce, data)) == Some(Envelope(ToDouble(timestamp), nonce, data))
    ensures UnwrapPayload(WrapPayload(timestamp, nonce, data)) == Some(Envelope(timestamp, nonce, data))
            <==> timestamp % Pow2(Excess(timestamp)) == 0
    ensures timestamp < TWO53 ==> timestamp % Pow2(Excess(timestamp)) == 0
  {
    DoubleExact(timestamp);
    var p := WrapPayload(timestamp, nonce, data);
    assert p[0..8] == Put64(timestamp) && p[8..24] == nonce && p[24..] == data;
  }
}
