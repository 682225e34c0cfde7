/**
 * What is in flight in one direction of a session: the frames one end has written and the other has not
 * handled, as bytes on the wire, as undecoded bytes and as decoded frames waiting for their turn.
 */
module SessionQueue {
  import opened Bytes
  import opened Frame
  import opened Handshake
  import opened SecureConnection
  import opened StreamCodec

  // ---- Frames in flight, whatever they carry ----

  ghost predicate Encodable(fs: seq<bytes>) {
    forall i :: 0 <= i < |fs| ==> |fs[i]| < U32
  }

  /** The bytes a list of frames takes on the wire. */
  function OnWire(fs: seq<bytes>): bytes
    requires Encodable(fs)
  {
    if fs == [] then [] else EncodeFrame(fs[0]).value + OnWire(fs[1..])
  }

  /** The frames `fs` are in flight: some are decoded, the rest are split between buffer and wire. */
  ghost predicate Carries(pending: seq<bytes>, buf: bytes, out: bytes, fs: seq<bytes>) {
    && Encodable(fs) && pending <= fs
    && buf + out == OnWire(fs[|pending|..])
  }

  lemma {:induction false} OnWireAppend(fs: seq<bytes>, f: bytes)
    requires Encodable(fs) && |f| < U32
    ensures Encodable(fs + [f]) && OnWire(fs + [f]) == OnWire(fs) + EncodeFrame(f).value
  {
    if fs == [] {
      assert OnWire([f]) == EncodeFrame(f).value + OnWire([]);
    } else {
      OnWireAppend(fs[1..], f);
      CutFront(fs, [f], 1);
      Assoc(EncodeFrame(fs[0]).value, OnWire(fs[1..]), EncodeFrame(f).value);
    }
  }

  /** A frame is written. */
  lemma CarriesWrite(pending: seq<bytes>, buf: bytes, out: bytes, fs: seq<bytes>, f: bytes)
    requires Carries(pending, buf, out, fs) && |f| < U32
    ensures Carries(pending, buf, out + EncodeFrame(f).value, fs + [f])
  {
    OnWireAppend(fs[|pending|..], f);
    CutFront(fs, [f], |pending|);
    Assoc(buf, out, EncodeFrame(f).value);
  }

  /** A decoded frame is taken for its turn. */
  lemma CarriesTurn(pending: seq<bytes>, buf: bytes, out: bytes, fs: seq<bytes>)
    requires Carries(pending, buf, out, fs) && pending != []
    ensures fs != [] && pending[0] == fs[0]
    ensures Carries(pending[1..], buf, out, fs[1..])
  {
    assert fs[1..][|pending| - 1..] == fs[|pending|..];
  }

  /**
   * Decoding a prefix `a` of the encoding of `fs`: it yields the first frames whole and leaves the
   * bytes of the others, unless one of them is over the limit.
   */
  lemma {:induction false} DecodePrefix(max: nat, fs: seq<bytes>, a: bytes, b: bytes) returns (m: nat)
    requires Encodable(fs) && a + b == OnWire(fs)
    ensures m <= |fs|
    ensures Decode(Frames(max), a).failed ==> m < |fs| && |fs[m]| > max
    ensures !Decode(Frames(max), a).failed ==>
              && Payloads(Decode(Frames(max), a).units) == fs[..m]
              && Decode(Frames(max), a).rest + b == OnWire(fs[m..])
    decreases |a|
  {
    m := 0;
    if fs == [] {
      assert a == [];
      assert fs[0..] == fs && fs[..0] == [];
    } else {
      HeadOfWire(max, fs, a, b);
      assert fs[0..] == fs && fs[..0] == [];
      if Next(Frames(max), a).Take? {
        var n := Next(Frames(max), a).size;
        var m1 := DecodePrefix(max, fs[1..], a[n..], b);
        m := m1 + 1;
        assert fs[1..][m1..] == fs[m..];
        assert [fs[0]] + fs[1..][..m1] == fs[..m];
        var d := Decode(Frames(max), a[n..]);
        assert ([a[..n]] + d.units)[1..] == d.units;
      }
    }
  }

  /** What the front of a prefix of the wire says is what the first frame says. */
  lemma HeadOfWire(max: nat, fs: seq<bytes>, a: bytes, b: bytes)
    requires Encodable(fs) && fs != [] && a + b == OnWire(fs)
    ensures Next(Frames(max), a).Bad? ==> |fs[0]| > max
    ensures Next(Frames(max), a).Take? ==>
              var n := Next(Frames(max), a).size;
              Payload(a[..n]) == fs[0] && a[n..] + b == OnWire(fs[1..])
  {
    var u := EncodeFrame(fs[0]).value;
    var rest := OnWire(fs[1..]);
    if |a| >= 4 {
      assert (a + b)[0..4] == a[0..4];
      assert (u + rest)[0..4] == u[0..4] == Put32(|fs[0]|);
    }
    if Next(Frames(max), a).Take? {
      CutFront(a, b, |u|);
      CutHead(u, rest);
    }
  }

  /** A chunk of what is on the wire arrives. */
  lemma CarriesChunk(pending: seq<bytes>, buf: bytes, out: bytes, fs: seq<bytes>, n: nat, max: nat) returns (m: nat)
    requires Carries(pending, buf, out, fs) && n <= |out|
    ensures var d := Decode(Frames(max), buf + out[..n]);
            && (d.failed ==> m < |fs| && |fs[m]| > max)
            && (!d.failed ==> Carries(pending + Payloads(d.units), d.rest, out[n..], fs))
  {
    var p := |pending|;
    assert (buf + out[..n]) + out[n..] == buf + out;
    var m1 := DecodePrefix(max, fs[p..], buf + out[..n], out[n..]);
    m := p + m1;
    if !Decode(Frames(max), buf + out[..n]).failed {
      assert fs[p..][..m1] == fs[p..m] && fs[p..][m1..] == fs[m..];
      assert pending + fs[p..m] == fs[..m];
    }
  }

  // ---- Sealed frames in flight ----

  datatype Item = Item(nonce: Nonce, plain: Plain)

  /** 1 when the message renews its direction's key. */
  function Shift(p: Plain): nat {
    if p.Rekey? || p.RekeyAck? then 1 else 0
  }

  function Shifts(q: seq<Item>): nat {
    if q == [] then 0 else Shift(q[0].plain) + Shifts(q[1..])
  }

  function Sealed(k: Crypto, base: bytes, gen: nat, it: Item): bytes {
    SealUnder(k, KeyAt(k, base, gen), it.nonce, PlainBytes(it.plain))
  }

  /** Each message sealed under generation `gen` plus the number of key renewals ahead of it. */
  function FramesOf(k: Crypto, base: bytes, gen: nat, q: seq<Item>): seq<bytes>
    decreases |q|
  {
    if q == [] then []
    else [Sealed(k, base, gen, q[0])] + FramesOf(k, base, gen + Shift(q[0].plain), q[1..])
  }

  /** The application messages in flight. */
  function Bodies(q: seq<Item>): seq<bytes> {
    if q == [] then []
    else (if q[0].plain.Data? then [q[0].plain.body] else []) + Bodies(q[1..])
  }

  /** Sequence numbers in flight rise strictly, from above `lo` and up to `hi`. */
  predicate Rising(q: seq<Item>, lo: nat, hi: nat) {
    if q == [] then lo <= hi
    else if q[0].plain.Data? then lo < q[0].plain.num && Rising(q[1..], q[0].plain.num, hi)
    else Rising(q[1..], lo, hi)
  }

  function Rekeys(q: seq<Item>): nat {
    if q == [] then 0 else (if q[0].plain.Rekey? then 1 else 0) + Rekeys(q[1..])
  }

  function Acks(q: seq<Item>): nat {
    if q == [] then 0 else (if q[0].plain.RekeyAck? then 1 else 0) + Acks(q[1..])
  }

  predicate NoClose(q: seq<Item>) {
    forall i :: 0 <= i < |q| ==> !q[i].plain.Close?
  }

  /** CLOSE can only be the last message. */
  predicate CloseLast(q: seq<Item>) {
    forall i :: 0 <= i < |q| - 1 ==> !q[i].plain.Close?
  }

  lemma {:induction false} FramesAppend(k: Crypto, base: bytes, gen: nat, q: seq<Item>, it: Item)
    ensures FramesOf(k, base, gen, q + [it]) == FramesOf(k, base, gen, q) + [Sealed(k, base, gen + Shifts(q), it)]
    decreases |q|
  {
    if q == [] {
      assert FramesOf(k, base, gen, [it]) == [Sealed(k, base, gen, it)] + FramesOf(k, base, gen + Shift(it.plain), []);
    } else {
      FramesAppend(k, base, gen + Shift(q[0].plain), q[1..], it);
      CutFront(q, [it], 1);
      Assoc([Sealed(k, base, gen, q[0])], FramesOf(k, base, gen + Shift(q[0].plain), q[1..]),
            [Sealed(k, base, gen + Shifts(q), it)]);
    }
  }

  lemma {:induction false} CountsAppend(q: seq<Item>, it: Item)
    ensures Shifts(q + [it]) == Shifts(q) + Shift(it.plain)
    ensures Rekeys(q + [it]) == Rekeys(q) + if it.plain.Rekey? then 1 else 0
    ensures Acks(q + [it]) == Acks(q) + if it.plain.RekeyAck? then 1 else 0
    ensures Bodies(q + [it]) == Bodies(q) + if it.plain.Data? then [it.plain.body] else []
  {
    if q == [] {
      assert q + [it] == [it] && [it][1..] == [];
    } else {
      CountsAppend(q[1..], it);
      CutFront(q, [it], 1);
    }
  }

  lemma {:induction false} RisingAppend(q: seq<Item>, lo: nat, hi: nat, it: Item, hi': nat)
    requires Rising(q, lo, hi) && hi <= hi'
    requires it.plain.Data? ==> hi < it.plain.num <= hi'
    ensures Rising(q + [it], lo, hi') && Rising(q, lo, hi')
  {
    if q == [] {
      assert q + [it] == [it] && [it][1..] == [];
    } else {
      RisingAppend(q[1..], if q[0].plain.Data? then q[0].plain.num else lo, hi, it, hi');
      CutFront(q, [it], 1);
    }
  }

  lemma {:induction false} FramesCount(k: Crypto, base: bytes, gen: nat, q: seq<Item>)
    ensures |FramesOf(k, base, gen, q)| == |q|
    decreases |q|
  {
    if q != [] {
      FramesCount(k, base, gen + Shift(q[0].plain), q[1..]);
    }
  }

  lemma SealedLength(k: Crypto, base: bytes, gen: nat, it: Item)
    requires Laws(k)
    ensures |Sealed(k, base, gen, it)| == |PlainBytes(it.plain)| + NONCE_LEN + TAG_LEN
  {
    OpenSealed(k, KeyAt(k, base, gen), it.nonce, PlainBytes(it.plain));
  }

  /** Each frame is its message, sealed under some generation. */
  lemma {:induction false} FrameAt(k: Crypto, base: bytes, gen: nat, q: seq<Item>, j: nat) returns (g: nat)
    requires j < |q|
    ensures j < |FramesOf(k, base, gen, q)| && FramesOf(k, base, gen, q)[j] == Sealed(k, base, g, q[j])
    decreases |q|
  {
    FramesCount(k, base, gen, q);
    if j == 0 {
      g := gen;
    } else {
      g := FrameAt(k, base, gen + Shift(q[0].plain), q[1..], j - 1);
    }
  }

  /** The length of the frame of a message in flight. */
  lemma FrameLengthAt(k: Crypto, base: bytes, gen: nat, q: seq<Item>, j: nat)
    requires Laws(k) && j < |q|
    ensures j < |FramesOf(k, base, gen, q)|
    ensures |FramesOf(k, base, gen, q)[j]| == |PlainBytes(q[j].plain)| + NONCE_LEN + TAG_LEN
  {
    var g := FrameAt(k, base, gen, q, j);
    SealedLength(k, base, g, q[j]);
  }
}
