/**
 * The parsing loop shared by the two stream formats of the repository: length-prefixed session
 * frames (src/protocol/frame.js) and signed packets (`extractPackets` in src/protocol/packet.js).
 * A header at the front of the buffer says how many bytes the next unit takes, that more bytes are
 * needed, or that the stream is refused (the loop throws).
 */
module StreamCodec {
  import opened Bytes

  const MAGIC: bytes := [0x41, 0x54, 0x54, 0x50]
  const HEADER_LEN: nat := 41
  const SIGNATURE_LEN: nat := 64
  const HMAC_LEN: nat := 32
  const MAX_PAYLOAD_SIZE: nat := 0x10_0000
  const MAX_PACKET_SIZE: nat := 0x20_0000

  datatype Format = Frames(max: nat) | Packets

  datatype Refusal = FrameTooLarge | InvalidMagic | PayloadTooLarge | PacketTooLarge

  datatype Verdict = Need | Bad(why: Refusal) | Take(size: nat)

  /** What one turn of the loop decides from the front of the buffer. */
  function Next(f: Format, b: bytes): (v: Verdict)
    ensures v.Take? ==> 0 < v.size <= |b|
  {
    match f
    case Frames(max) =>
      if |b| < 4 then Need
      else
        var len := Get32(b, 0);
        if len > max then Bad(FrameTooLarge)
        else if |b| < 4 + len then Need
        else Take(4 + len)
    case Packets =>
      if |b| < HEADER_LEN then Need
      else if b[0..4] != MAGIC then Bad(InvalidMagic)
      else
        var len := Get32(b, 37);
        var total := HEADER_LEN + len + SIGNATURE_LEN + HMAC_LEN;
        if len > MAX_PAYLOAD_SIZE then Bad(PayloadTooLarge)
        else if total > MAX_PACKET_SIZE then Bad(PacketTooLarge)
        else if |b| < total then Need
        else Take(total)
  }

  /** Once a verdict other than "need more" is reached, later bytes do not change it. */
  lemma NextStable(f: Format, b: bytes, c: bytes)
    requires Next(f, b) != Need
    ensures Next(f, b + c) == Next(f, b)
  {
    match f
    case Frames(_) => assert (b + c)[0..4] == b[0..4];
    case Packets =>
      assert (b + c)[0..4] == b[0..4];
      assert (b + c)[37..41] == b[37..41];
  }

  /** What one pass of the loop leaves: complete units, unread bytes, and whether it threw. */
  datatype Decoded = Decoded(units: seq<bytes>, rest: bytes, failed: bool)

  function Decode(f: Format, buf: bytes): Decoded
    decreases |buf|
  {
    match Next(f, buf)
    case Need => Decoded([], buf, false)
    case Bad(_) => Decoded([], buf, true)
    case Take(n) =>
      var d := Decode(f, buf[n..]);
      Decoded([buf[..n]] + d.units, d.rest, d.failed)
  }

  /** Cutting the input after `a` changes nothing: parse `a`, keep its leftover, go on with `b`. */
  lemma {:induction false} DecodeCut(f: Format, a: bytes, b: bytes)
    ensures !Decode(f, a).failed ==>
              var da, d := Decode(f, a), Decode(f, a + b);
              var db := Decode(f, da.rest + b);
              d == Decoded(da.units + db.units, db.rest, db.failed)
    ensures Decode(f, a).failed ==>
              Decode(f, a + b).failed && Decode(f, a + b).units == Decode(f, a).units
    decreases |a|
  {
    if Next(f, a) != Need {
      NextStable(f, a, b);
    }
    if Next(f, a).Take? {
      var n := Next(f, a).size;
      CutFront(a, b, n);
      DecodeCut(f, a[n..], b);
      var da := Decode(f, a[n..]);
      Assoc([a[..n]], da.units, Decode(f, da.rest + b).units);
    }
  }

  /** No byte is lost or reordered: the units and the leftover, in order, are the input. */
  lemma {:induction false} DecodeKeepsBytes(f: Format, buf: bytes)
    ensures Concat(Decode(f, buf).units) + Decode(f, buf).rest == buf
    decreases |buf|
  {
    if Next(f, buf).Take? {
      var n := Next(f, buf).size;
      DecodeKeepsBytes(f, buf[n..]);
      var d := Decode(f, buf[n..]);
      assert ([buf[..n]] + d.units)[1..] == d.units;
      assert buf == buf[..n] + buf[n..];
    }
  }

  /** A pass stops only where more bytes are needed or where the header is refused. */
  lemma {:induction false} DecodeStops(f: Format, buf: bytes)
    ensures !Decode(f, buf).failed ==> Next(f, Decode(f, buf).rest) == Need
    ensures Decode(f, buf).failed ==> Next(f, Decode(f, buf).rest).Bad?
    decreases |buf|
  {
    if Next(f, buf).Take? {
      DecodeStops(f, buf[Next(f, buf).size..]);
    }
  }

  /** Every unit handed out is one the header takes whole. */
  lemma {:induction false} DecodeUnits(f: Format, buf: bytes, i: nat)
    requires i < |Decode(f, buf).units|
    ensures Next(f, Decode(f, buf).units[i]) == Take(|Decode(f, buf).units[i]|)
    decreases |buf|
  {
    var n := Next(f, buf).size;
    if i == 0 {
      match f
      case Frames(_) => assert buf[..n][0..4] == buf[0..4];
      case Packets =>
        assert buf[..n][0..4] == buf[0..4];
        assert buf[..n][37..41] == buf[37..41];
    } else {
      DecodeUnits(f, buf[n..], i - 1);
    }
  }

  /** A stream that is a concatenation of whole units decodes to exactly those units. */
  lemma {:induction false} DecodeConcat(f: Format, units: seq<bytes>, tail: bytes)
    requires forall i :: 0 <= i < |units| ==> Next(f, units[i]) == Take(|units[i]|)
    ensures Decode(f, Concat(units) + tail) ==
            Decoded(units + Decode(f, tail).units, Decode(f, tail).rest, Decode(f, tail).failed)
    decreases |units|
  {
    if units == [] {
      assert Concat(units) + tail == tail;
    } else {
      var u, us := units[0], units[1..];
      var rest := Concat(us) + tail;
      Assoc(u, Concat(us), tail);
      NextStable(f, u, rest);
      CutFront(u, rest, |u|);
      assert u[|u|..] + rest == rest && u[..|u|] == u;
      DecodeConcat(f, us, tail);
      Assoc([u], us, Decode(f, tail).units);
      assert [u] + us == units;
    }
  }

  /**
   * The caller's loop: every chunk that arrives is appended to the leftover and parsed. A pass that
   * throws hands out nothing, so the units it had completed are lost, and ends the loop.
   */
  datatype Feed = Feed(given: seq<bytes>, buf: bytes, failed: bool)

  function FeedAll(f: Format, buf: bytes, chunks: seq<bytes>): Feed
    decreases |chunks|
  {
    if chunks == [] then Feed([], buf, false)
    else
      var d := Decode(f, buf + chunks[0]);
      if d.failed then Feed([], d.rest, true)
      else
        var r := FeedAll(f, d.rest, chunks[1..]);
        Feed(d.units + r.given, r.buf, r.failed)
  }

  /**
   * Fragmentation independence. However the stream is cut, the loop throws exactly when one pass
   * over the whole stream would; otherwise it hands out the same units and keeps the same leftover;
   * and what it hands out before throwing is a prefix of the units before the refused header.
   */
  lemma {:induction false} FeedIsDecode(f: Format, buf: bytes, chunks: seq<bytes>)
    requires Next(f, buf) == Need
    ensures var r, d := FeedAll(f, buf, chunks), Decode(f, buf + Concat(chunks));
            && r.failed == d.failed
            && (!r.failed ==> r.given == d.units && r.buf == d.rest)
            && (r.failed ==> r.given <= d.units)
    decreases |chunks|
  {
    if chunks == [] {
      assert buf + Concat(chunks) == buf;
    } else {
      var a, b := buf + chunks[0], Concat(chunks[1..]);
      assert buf + Concat(chunks) == a + b;
      DecodeCut(f, a, b);
      DecodeStops(f, a);
      var d := Decode(f, a);
      if !d.failed {
        FeedIsDecode(f, d.rest, chunks[1..]);
      }
    }
  }
}
