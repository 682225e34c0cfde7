/** Length-prefixed session frames (src/protocol/frame.js). */
module Frame {
  import opened Bytes
  import opened StreamCodec

  /** `encodeFrame`: `writeUInt32BE` throws on a length of 2^32 or more, which `None` stands for. */
  function EncodeFrame(payload: bytes): (r: Option<bytes>) {
    if |payload| < U32 then Some(Put32(|payload|) + payload) else None
  }

  /** The payload of a complete frame: what follows its length field. */
  function Payload(unit: bytes): bytes {
    if |unit| < 4 then [] else unit[4..]
  }

  /** The payload copies that `push` collects. */
  function Payloads(units: seq<bytes>): (ps: seq<bytes>)
    ensures |ps| == |units|
    ensures forall i :: 0 <= i < |ps| ==> ps[i] == Payload(units[i])
  {
    if units == [] then [] else [Payload(units[0])] + Payloads(units[1..])
  }

  lemma {:induction false} PayloadsAppend(xs: seq<bytes>, ys: seq<bytes>)
    ensures Payloads(xs + ys) == Payloads(xs) + Payloads(ys)
  {
    if xs == [] {
      assert xs + ys == ys;
    } else {
      assert (xs + ys)[1..] == xs[1..] + ys;
      PayloadsAppend(xs[1..], ys);
    }
  }

  /** An encoded frame, whatever follows it, reads back as one unit carrying its payload. */
  lemma EncodeFrameIsUnit(max: nat, payload: bytes)
    requires |payload| <= max && EncodeFrame(payload).Some?
    ensures var u := EncodeFrame(payload).value;
            Next(Frames(max), u) == Take(|u|) && Payload(u) == payload
  {
    var u := EncodeFrame(payload).value;
    assert u[0..4] == Put32(|payload|);
  }

  /** An encoded frame over the limit is refused, whatever follows it. */
  lemma OversizeRefused(max: nat, payload: bytes, more: bytes)
    requires |payload| > max && EncodeFrame(payload).Some?
    ensures Next(Frames(max), EncodeFrame(payload).value + more) == Bad(FrameTooLarge)
  {
    assert (EncodeFrame(payload).value + more)[0..4] == Put32(|payload|);
  }

  function Wire(payloads: seq<bytes>): seq<bytes>
    requires forall i :: 0 <= i < |payloads| ==> EncodeFrame(payloads[i]).Some?
  {
    seq(|payloads|, i requires 0 <= i < |payloads| => EncodeFrame(payloads[i]).value)
  }

  /**
   * Whatever way the concatenated encodings of some payloads are cut into chunks, the decoder hands
   * out those payloads in order and keeps nothing back.
   */
  lemma FrameStreamRoundTrip(max: nat, payloads: seq<bytes>, chunks: seq<bytes>)
    requires forall i :: 0 <= i < |payloads| ==> |payloads[i]| <= max && EncodeFrame(payloads[i]).Some?
    requires Concat(chunks) == Concat(Wire(payloads))
    ensures var r := FeedAll(Frames(max), [], chunks);
            !r.failed && Payloads(r.given) == payloads && r.buf == []
  {
    var f, us := Frames(max), Wire(payloads);
    forall i | 0 <= i < |us|
      ensures Next(f, us[i]) == Take(|us[i]|) && Payload(us[i]) == payloads[i]
    {
      EncodeFrameIsUnit(max, payloads[i]);
    }
    DecodeConcat(f, us, []);
    assert Concat(us) + [] == Concat(us) == [] + Concat(chunks);
    assert us + Decode(f, []).units == us;
    FeedIsDecode(f, [], chunks);
  }

  /** Between chunks the decoder never holds more than a length field and an incomplete payload. */
  lemma LeftoverBound(max: nat, chunks: seq<bytes>)
    ensures var r := FeedAll(Frames(max), [], chunks); !r.failed ==> |r.buf| <= max + 3
  {
    FeedIsDecode(Frames(max), [], chunks);
    DecodeStops(Frames(max), [] + Concat(chunks));
  }

  /** The bound is reached: a length field of `max` followed by all but one byte of its payload. */
  lemma LeftoverBoundTight(max: nat, part: bytes)
    requires 0 < max < U32 && |part| == max - 1
    ensures FeedAll(Frames(max), [], [Put32(max) + part]) == Feed([], Put32(max) + part, false)
  {
    var chunk: bytes := Put32(max) + part;
    assert [] + chunk == chunk;
    assert chunk[0..4] == Put32(max);
    assert Decode(Frames(max), chunk) == Decoded([], chunk, false);
  }

  class FrameDecoder {
    const max: nat
    var buf: bytes

    constructor (maxFrame: nat)
      ensures max == maxFrame && buf == []
    {
      max, buf := maxFrame, [];
    }

    /**
     * `push`: `None` is the throw on an oversized length. The frames completed before the throw are
     * dropped, and the refused header stays at the front of the buffer.
     */
    method Push(chunk: bytes) returns (frames: Option<seq<bytes>>)
      modifies this
      ensures var d := Decode(Frames(max), old(buf) + chunk);
              && buf == d.rest
              && frames == if d.failed then None else Some(Payloads(d.units))
    {
      buf := buf + chunk;
      ghost var input := buf;
      ghost var units: seq<bytes> := [];
      var out: seq<bytes> := [];
      while |buf| >= 4
        invariant out == Payloads(units)
        invariant var d := Decode(Frames(max), buf);
                  Decode(Frames(max), input) == Decoded(units + d.units, d.rest, d.failed)
        decreases |buf|
      {
        var len := Get32(buf, 0);
        if len > max {
          assert Decode(Frames(max), buf) == Decoded([], buf, true);
          return None;
        }
        if |buf| < 4 + len {
          break;
        }
        ghost var unit := buf[..4 + len];
        assert Payload(unit) == buf[4..4 + len];
        PayloadsAppend(units, [unit]);
        Assoc(units, [unit], Decode(Frames(max), buf[4 + len..]).units);
        out := out + [buf[4..4 + len]];
        units := units + [unit];
        buf := buf[4 + len..];
      }
      assert Decode(Frames(max), buf) == Decoded([], buf, false);
      assert units + [] == units;
      frames := Some(out);
    }
  }
}
