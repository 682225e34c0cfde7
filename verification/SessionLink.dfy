/**
 * One direction of a session: how what the sender has done relates to what the receiver has seen, and
 * why every step of either end keeps that relation.
 */
module SessionLink {
  import opened Bytes
  import opened Frame
  import opened Handshake
  import opened SecureConnection
  import opened SessionQueue
  import opened StreamCodec

  /** What a direction depends on at its sending end. */
  datatype Sender = Sender(out: bytes, txSeq: nat, txGen: nat, sent: seq<bytes>, writable: bool)

  /** What a direction depends on at its receiving end. */
  datatype Receiver = Receiver(pending: seq<bytes>, buf: bytes, rxGen: nat, last: nat, told: seq<bytes>,
                               closed: bool, destroyed: bool)

  /** The bodies of the messages emitted so far. */
  function Told(got: seq<Message>): (r: seq<bytes>)
    ensures |r| == |got|
    ensures forall i :: 0 <= i < |r| ==> r[i] == got[i].body
  {
    seq(|got|, i requires 0 <= i < |got| => got[i].body)
  }

  function Sending(c: Conn): Sender {
    Sender(c.sock.out, c.tx.num, if c.session.Some? then c.session.value.txGen else 0, c.tx.sent, Writable(c))
  }

  function Receiving(c: Conn): Receiver {
    Receiver(c.rx.pending, c.rx.buf, if c.session.Some? then c.session.value.rxGen else 0,
             if c.rx.last.Some? then c.rx.last.value else 0, Told(c.rx.got), c.sock.closed, c.sock.destroyed)
  }

  /** The frames in flight: a handshake message, if any, then sealed messages. */
  function InFlight(k: Crypto, base: bytes, gen: nat, h: seq<bytes>, q: seq<Item>): seq<bytes> {
    if h == [] then FramesOf(k, base, gen, q) else h + FramesOf(k, base, gen, q)
  }

  /**
   * A direction whose receiver still reads. In flight are the handshake message `h`, if any, then the
   * sealed messages `q`. What was emitted and what is in flight are, in order, the first bodies sent,
   * and all of them while the sender can write.
   */
  ghost predicate Flow(k: Crypto, base: bytes, s: Sender, r: Receiver, h: seq<bytes>, q: seq<Item>) {
    && Carries(r.pending, r.buf, s.out, InFlight(k, base, r.rxGen, h, q))
    && Rising(q, r.last, s.txSeq)
    && CloseLast(q)
    && InSequence(r.told, q, s.sent, s.writable)
    && (r.closed ==> h == [] && q == [] && !s.writable)
    && (s.writable ==> NoClose(q) && s.txGen == r.rxGen + Shifts(q))
  }

  /** The bodies told and in flight are the first of those sent, and all of them while the sender can write. */
  ghost predicate InSequence(told: seq<bytes>, q: seq<Item>, sent: seq<bytes>, writable: bool) {
    told + Bodies(q) <= sent && (writable ==> told + Bodies(q) == sent)
  }

  ghost predicate Link(k: Crypto, base: bytes, s: Sender, r: Receiver, h: seq<bytes>, q: seq<Item>) {
    && r.told <= s.sent
    && if r.destroyed then h == [] && q == [] && r.pending == [] && r.closed else Flow(k, base, s, r, h, q)
  }

  /** The messages in flight after one more is emitted. */
  function Pushed(s: Sender, r: Receiver, q: seq<Item>, it: Item): seq<Item> {
    if s.writable && !r.destroyed then q + [it] else q
  }

  function Body(p: Plain): seq<bytes> {
    if p.Data? then [p.body] else []
  }

  /** `s'` is `s` after emitting `it` under its current key. */
  ghost predicate Emits(k: Crypto, base: bytes, s: Sender, it: Item, s': Sender) {
    var f := Sealed(k, base, s.txGen, it);
    && (s.writable ==> |f| < U32 && s'.out == s.out + EncodeFrame(f).value)
    && s'.txGen == s.txGen + Shift(it.plain)
    && s.txSeq <= s'.txSeq && (it.plain.Data? ==> s.txSeq < it.plain.num <= s'.txSeq)
    && s'.sent == s.sent + Body(it.plain)
    && (s'.writable ==> s.writable && !it.plain.Close?)
    && (!s.writable ==> s'.out == s.out)
  }

  lemma InFlightAppend(k: Crypto, base: bytes, gen: nat, h: seq<bytes>, q: seq<Item>, it: Item)
    ensures InFlight(k, base, gen, h, q + [it]) == InFlight(k, base, gen, h, q) + [Sealed(k, base, gen + Shifts(q), it)]
  {
    FramesAppend(k, base, gen, q, it);
    Assoc(h, FramesOf(k, base, gen, q), [Sealed(k, base, gen + Shifts(q), it)]);
  }

  lemma FramesPushed(k: Crypto, base: bytes, s: Sender, r: Receiver, h: seq<bytes>, q: seq<Item>, it: Item)
    requires Carries(r.pending, r.buf, s.out, InFlight(k, base, r.rxGen, h, q))
    requires |Sealed(k, base, r.rxGen + Shifts(q), it)| < U32
    ensures Carries(r.pending, r.buf, s.out + EncodeFrame(Sealed(k, base, r.rxGen + Shifts(q), it)).value,
                    InFlight(k, base, r.rxGen, h, q + [it]))
  {
    InFlightAppend(k, base, r.rxGen, h, q, it);
    CarriesWrite(r.pending, r.buf, s.out, InFlight(k, base, r.rxGen, h, q), Sealed(k, base, r.rxGen + Shifts(q), it));
  }

  lemma LinkEmits(k: Crypto, base: bytes, s: Sender, r: Receiver, h: seq<bytes>, q: seq<Item>, it: Item, s': Sender)
    requires Link(k, base, s, r, h, q) && Emits(k, base, s, it, s')
    ensures Link(k, base, s', r, h, Pushed(s, r, q, it))
  {
    if !r.destroyed {
      RisingAppend(q, r.last, s.txSeq, it, s'.txSeq);
      if s.writable {
        CountsAppend(q, it);
        FramesPushed(k, base, s, r, h, q, it);
        Assoc(r.told, Bodies(q), Body(it.plain));
      }
    }
  }

  /** The sender goes on without writing: it may stop, or use up a sequence number. */
  lemma LinkQuiet(k: Crypto, base: bytes, s: Sender, r: Receiver, h: seq<bytes>, q: seq<Item>, s': Sender)
    requires Link(k, base, s, r, h, q)
    requires s'.out == s.out && s'.sent == s.sent && s'.txSeq >= s.txSeq
    requires s'.writable ==> s.writable && s'.txGen == s.txGen
    ensures Link(k, base, s', r, h, q)
  {
    if !r.destroyed {
      RisingAppend(q, r.last, s.txSeq, Item(seq(NONCE_LEN, i => 0), Close), s'.txSeq);
    }
  }

  /** The receiver gives up. */
  lemma LinkDies(k: Crypto, base: bytes, s: Sender, r: Receiver, h: seq<bytes>, q: seq<Item>, r': Receiver)
    requires Link(k, base, s, r, h, q) && r'.told == r.told
    requires r'.destroyed && r'.closed && r'.pending == []
    ensures Link(k, base, s, r', [], [])
  {}

  /** Some of the bytes on the wire arrive; only an oversized frame makes the receiver give up. */
  lemma LinkChunk(k: Crypto, base: bytes, s: Sender, r: Receiver, h: seq<bytes>, q: seq<Item>, n: nat) returns (m: nat)
    requires Link(k, base, s, r, h, q) && !r.destroyed && n <= |s.out|
    ensures var d := Decode(Frames(SESSION_MAX_FRAME), r.buf + s.out[..n]);
            var fs := InFlight(k, base, r.rxGen, h, q);
            && (d.failed ==> m < |fs| && |fs[m]| > SESSION_MAX_FRAME)
            && (!d.failed ==> Link(k, base, s.(out := s.out[n..]),
                                   r.(pending := r.pending + Payloads(d.units), buf := d.rest), h, q))
  {
    m := CarriesChunk(r.pending, r.buf, s.out, InFlight(k, base, r.rxGen, h, q), n, SESSION_MAX_FRAME);
  }

  /** A handshake message is written on an empty direction. */
  lemma LinkHello(k: Crypto, base: bytes, s: Sender, r: Receiver, m: bytes, s': Sender)
    requires Link(k, base, s, r, [], []) && !r.destroyed && !r.closed && |m| < U32
    requires s' == s.(out := s.out + EncodeFrame(m).value)
    ensures Link(k, base, s', r, [m], [])
  {
    CarriesWrite(r.pending, r.buf, s.out, [], m);
    assert [] + [m] == [m] + [];
  }

  /** The receiver takes the handshake message for its turn. */
  lemma LinkTakesHello(k: Crypto, base: bytes, s: Sender, r: Receiver, m: bytes, q: seq<Item>)
    requires Link(k, base, s, r, [m], q) && r.pending != []
    ensures !r.destroyed && r.pending[0] == m
    ensures Link(k, base, s, r.(pending := r.pending[1..]), [], q)
  {
    var fs := FramesOf(k, base, r.rxGen, q);
    CarriesTurn(r.pending, r.buf, s.out, [m] + fs);
    CutHead([m], fs);
  }

  /** The receiver after it has handled a sealed message. */
  function Taken(r: Receiver, p: Plain): Receiver
    requires r.pending != []
  {
    r.(pending := r.pending[1..], rxGen := r.rxGen + Shift(p), last := if p.Data? then p.num else r.last,
       told := r.told + Body(p), closed := r.closed || p.Close?)
  }

  /** The frame taken is the oldest in flight; the others follow it under their generations. */
  lemma FramesTurn(k: Crypto, base: bytes, s: Sender, r: Receiver, q: seq<Item>)
    requires Carries(r.pending, r.buf, s.out, FramesOf(k, base, r.rxGen, q)) && r.pending != []
    ensures q != [] && r.pending[0] == Sealed(k, base, r.rxGen, q[0])
    ensures Carries(r.pending[1..], r.buf, s.out, FramesOf(k, base, r.rxGen + Shift(q[0].plain), q[1..]))
    ensures q[1..] == [] ==> r.pending[1..] == []
  {
    CarriesTurn(r.pending, r.buf, s.out, FramesOf(k, base, r.rxGen, q));
    CutHead([Sealed(k, base, r.rxGen, q[0])], FramesOf(k, base, r.rxGen + Shift(q[0].plain), q[1..]));
  }

  lemma TellOne(told: seq<bytes>, body: seq<bytes>, rest: seq<bytes>, sent: seq<bytes>)
    requires told + (body + rest) <= sent
    ensures told + body <= sent && (told + body) + rest <= sent
    ensures told + (body + rest) == (told + body) + rest
  {
    Assoc(told, body, rest);
  }

  /** The bodies told and in flight, in order, stay the same. */
  lemma BodiesTurn(told: seq<bytes>, q: seq<Item>, sent: seq<bytes>, writable: bool)
    requires q != [] && InSequence(told, q, sent, writable)
    ensures InSequence(told + Body(q[0].plain), q[1..], sent, writable) && told + Body(q[0].plain) <= sent
  {
    TellOne(told, Body(q[0].plain), Bodies(q[1..]), sent);
  }

  /** The number taken is new, and the others rise from it. */
  lemma RisingTurn(q: seq<Item>, lo: nat, hi: nat)
    requires q != [] && Rising(q, lo, hi)
    ensures q[0].plain.Data? ==> lo < q[0].plain.num
    ensures Rising(q[1..], if q[0].plain.Data? then q[0].plain.num else lo, hi)
  {}

  lemma TailClose(q: seq<Item>)
    requires q != []
    ensures CloseLast(q) ==> CloseLast(q[1..]) && (q[0].plain.Close? ==> q[1..] == [])
    ensures NoClose(q) ==> NoClose(q[1..]) && !q[0].plain.Close?
  {}

  /** What a sender that can write promises of the rest. */
  lemma WritableTurn(k: Crypto, base: bytes, s: Sender, r: Receiver, q: seq<Item>)
    requires Flow(k, base, s, r, [], q) && q != []
    ensures s.writable ==>
              && NoClose(q[1..]) && s.txGen == r.rxGen + Shift(q[0].plain) + Shifts(q[1..])
              && !r.closed && !q[0].plain.Close?
  {
    TailClose(q);
  }

  lemma FlowIs(k: Crypto, base: bytes, s: Sender, r: Receiver, q: seq<Item>)
    requires Carries(r.pending, r.buf, s.out, FramesOf(k, base, r.rxGen, q))
    requires Rising(q, r.last, s.txSeq) && CloseLast(q) && InSequence(r.told, q, s.sent, s.writable)
    requires r.closed ==> q == [] && !s.writable
    requires s.writable ==> NoClose(q) && s.txGen == r.rxGen + Shifts(q)
    ensures Flow(k, base, s, r, [], q)
  {}

  lemma TakenFields(r: Receiver, p: Plain)
    requires r.pending != []
    ensures var r' := Taken(r, p);
            && r'.pending == r.pending[1..] && r'.buf == r.buf && r'.rxGen == r.rxGen + Shift(p)
            && r'.last == (if p.Data? then p.num else r.last) && r'.told == r.told + Body(p)
            && r'.closed == (r.closed || p.Close?) && r'.destroyed == r.destroyed
  {}

  /** A message that is taken leaves a direction whose receiver still reads. */
  lemma FlowTurn(k: Crypto, base: bytes, s: Sender, r: Receiver, q: seq<Item>)
    requires Flow(k, base, s, r, [], q) && q != [] && r.pending != []
    requires Carries(r.pending[1..], r.buf, s.out, FramesOf(k, base, r.rxGen + Shift(q[0].plain), q[1..]))
    ensures var r' := Taken(r, q[0].plain); Flow(k, base, s, r', [], q[1..]) && r'.told <= s.sent
  {
    RisingTurn(q, r.last, s.txSeq);
    TailClose(q);
    BodiesTurn(r.told, q, s.sent, s.writable);
    WritableTurn(k, base, s, r, q);
    TakenFields(r, q[0].plain);
    FlowIs(k, base, s, Taken(r, q[0].plain), q[1..]);
  }

  /** The frame whose turn it is, and those that follow. */
  lemma TurnFrame(k: Crypto, base: bytes, s: Sender, r: Receiver, q: seq<Item>)
    requires Flow(k, base, s, r, [], q) && r.pending != []
    ensures q != [] && r.pending[0] == Sealed(k, base, r.rxGen, q[0])
    ensures Carries(r.pending[1..], r.buf, s.out, FramesOf(k, base, r.rxGen + Shift(q[0].plain), q[1..]))
    ensures q[1..] == [] ==> r.pending[1..] == []
  {
    FramesTurn(k, base, s, r, q);
  }

  /** Its number is new, and nothing follows a CLOSE. */
  lemma TurnIsNew(k: Crypto, base: bytes, s: Sender, r: Receiver, q: seq<Item>)
    requires Flow(k, base, s, r, [], q) && q != []
    ensures q[0].plain.Data? ==> r.last < q[0].plain.num
    ensures q[0].plain.Close? ==> q[1..] == [] && !s.writable
  {
    RisingTurn(q, r.last, s.txSeq);
    TailClose(q);
  }

  /**
   * The receiver takes a sealed message for its turn: it is the oldest in flight, it is sealed under the
   * receiver's current generation, and its number is new.
   */
  lemma LinkTurn(k: Crypto, base: bytes, s: Sender, r: Receiver, q: seq<Item>)
    requires Link(k, base, s, r, [], q) && r.pending != [] && !r.destroyed
    ensures q != [] && r.pending[0] == Sealed(k, base, r.rxGen, q[0])
    ensures q[0].plain.Data? ==> r.last < q[0].plain.num
    ensures q[0].plain.Close? ==> q[1..] == [] && r.pending[1..] == [] && !s.writable
    ensures Link(k, base, s, Taken(r, q[0].plain), [], q[1..])
  {
    TurnFrame(k, base, s, r, q);
    TurnIsNew(k, base, s, r, q);
    FlowTurn(k, base, s, r, q);
  }
}
