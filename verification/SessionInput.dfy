/** What one end makes of arbitrary input: whom it takes for its peer, and which frames it acts on. */
module SessionInput {
  import opened Bytes
  import opened Handshake
  import opened SecureConnection
  import opened SessionPair
  import opened StreamCodec
  import FixedWindow
  import Frame

  // ---- Whom an end talks to ----

  /** The keys of a session are generations of these two. */
  ghost predicate KeyedBy(k: Crypto, s: Session, tx: bytes, rx: bytes) {
    s.txKey == KeyAt(k, tx, s.txGen) && s.rxKey == KeyAt(k, rx, s.rxGen)
  }

  /**
   * The peer `s` names signed its ephemeral key `e` followed by this end's, and the keys of `s` come from the
   * exchange of the two; which is which depends on who began.
   */
  ghost predicate Vouched(k: Crypto, me: Self, s: Session, e: bytes, sig: bytes) {
    && k.verify(sig, e + k.pub(me.secrets.eph), s.peerId)
    && k.dh(me.secrets.eph, e).Some?
    && var secret := k.dh(me.secrets.eph, e).value;
       var toR, toI := k.hkdf(Ascii("AttestP2P-noise-v1"), secret, Ascii("AttestP2P I->R")),
                       k.hkdf(Ascii("AttestP2P-noise-v1"), secret, Ascii("AttestP2P R->I"));
       if me.initiator then KeyedBy(k, s, toR, toI) else KeyedBy(k, s, toI, toR)
  }

  /** What a responder keeps of MSG1: the peer signed its ephemeral key, and the keys are of that exchange. */
  ghost predicate HalfVouched(k: Crypto, me: Self, h: Half) {
    && h.session.peerId == h.id
    && k.dh(me.secrets.eph, h.ePub).Some?
    && (exists sig :: k.verify(sig, h.ePub, h.id))
    && var secret := k.dh(me.secrets.eph, h.ePub).value;
       KeyedBy(k, h.session, k.hkdf(Ascii("AttestP2P-noise-v1"), secret, Ascii("AttestP2P R->I")),
               k.hkdf(Ascii("AttestP2P-noise-v1"), secret, Ascii("AttestP2P I->R")))
  }

  ghost predicate Authentic(k: Crypto, c: Conn) {
    && (c.hs.half.Some? ==> !c.self.initiator && HalfVouched(k, c.self, c.hs.half.value))
    && (c.session.Some? ==> exists e, sig :: Vouched(k, c.self, c.session.value, e, sig))
  }

  /** The same session, each key the same or some generations on. */
  ghost predicate GoesOn(k: Crypto, s: Session, s': Session) {
    && s'.peerId == s.peerId
    && forall tx, rx :: KeyedBy(k, s, tx, rx) ==> KeyedBy(k, s', tx, rx)
  }

  lemma GoesOnVouched(k: Crypto, me: Self, s: Session, s': Session)
    requires GoesOn(k, s, s') && exists e, sig :: Vouched(k, me, s, e, sig)
    ensures exists e, sig :: Vouched(k, me, s', e, sig)
  {
    var e, sig :| Vouched(k, me, s, e, sig);
    assert Vouched(k, me, s', e, sig);
  }

  lemma EmitGoesOn(k: Crypto, c: Conn, nonce: Nonce, p: Plain)
    requires c.session.Some?
    ensures var c' := Emit(k, c, nonce, p).conn;
            c'.session.Some? && GoesOn(k, c.session.value, c'.session.value) && c'.hs == c.hs && c'.self == c.self
  {}

  lemma RekeyGoesOn(k: Crypto, c: Conn, nonce: Nonce)
    requires c.session.Some?
    ensures var c' := StartRekey(k, c, nonce);
            c'.session.Some? && GoesOn(k, c.session.value, c'.session.value) && c'.hs == c.hs && c'.self == c.self
  {
    if !c.tx.rekeying {
      EmitGoesOn(k, c.(tx := c.tx.(rekeying := true)), nonce, Rekey);
    }
  }

  lemma SendGoesOn(k: Crypto, c: Conn, body: bytes, now: int, nonce: Nonce, nonce2: Nonce)
    requires c.session.Some?
    ensures var c' := Send(k, c, body, now, nonce, nonce2).conn;
            c'.session.Some? && GoesOn(k, c.session.value, c'.session.value) && c'.hs == c.hs && c'.self == c.self
  {
    var w := SendData(k, c, body, nonce);
    if c.tx.num + 1 < U64 {
      EmitGoesOn(k, Numbered(c), nonce, Data(c.tx.num + 1, body));
    }
    RekeyGoesOn(k, w.conn, nonce2);
  }

  lemma HandledGoesOn(k: Crypto, c: Conn, p: Plain, now: int, nonce: Nonce)
    requires c.session.Some?
    ensures var c' := HandlePlain(k, c, p, now, nonce).conn;
            c'.session.Some? && GoesOn(k, c.session.value, c'.session.value) && c'.hs == c.hs && c'.self == c.self
  {
    if p.Rekey? {
      EmitGoesOn(k, c.(session := Some(RekeyRx(k, c.session.value))), nonce, RekeyAck);
    }
  }

  lemma SealedGoesOn(k: Crypto, c: Conn, allowed: bool, now: int, nonce: Nonce)
    requires c.session.Some?
    ensures var c' := HandleNext(k, c, allowed, now, nonce);
            c'.session.Some? && GoesOn(k, c.session.value, c'.session.value) && c'.hs == c.hs && c'.self == c.self
  {
    if c.rx.pending != [] && allowed {
      var pt := OpenUnder(k, c.session.value.rxKey, c.rx.pending[0]);
      if pt.Some? && ReadPlain(pt.value).Some? {
        HandledGoesOn(k, Shifted(c), ReadPlain(pt.value).value, now, nonce);
      }
    }
  }

  /** An initiator opens its session only on a MSG2 whose signature verifies. */
  lemma Message2Vouches(k: Crypto, me: Self, frame: bytes)
    requires me.initiator && ConsumeMessage2(k, me.secrets, frame).Some?
    ensures |frame| == 128
    ensures Vouched(k, me, ConsumeMessage2(k, me.secrets, frame).value.1, frame[..32], frame[64..])
    ensures ConsumeMessage2(k, me.secrets, frame).value.1.peerId == frame[32..64]
  {}

  /** A responder answers only a MSG1 whose signature verifies. */
  lemma Message1Vouches(k: Crypto, me: Self, frame: bytes)
    requires !me.initiator && ConsumeMessage1(k, me.secrets, frame).Some?
    ensures |frame| == 128 && k.verify(frame[64..], frame[..32], frame[32..64])
    ensures HalfVouched(k, me, ConsumeMessage1(k, me.secrets, frame).value.1)
    ensures ConsumeMessage1(k, me.secrets, frame).value.1.id == frame[32..64]
  {
    assert k.verify(frame[64..], ConsumeMessage1(k, me.secrets, frame).value.1.ePub, frame[32..64]);
  }

  /** A responder opens its session only on a MSG3 that is the signature of both ephemeral keys. */
  lemma Message3Vouches(k: Crypto, me: Self, half: Half, frame: bytes)
    requires !me.initiator && HalfVouched(k, me, half) && ConsumeMessage3(k, me.secrets, half, frame).Some?
    ensures |frame| == 64
    ensures Vouched(k, me, ConsumeMessage3(k, me.secrets, half, frame).value, half.ePub, frame)
  {}

  lemma HelloAuthentic(k: Crypto, c: Conn, frame: bytes)
    requires Authentic(k, c) && c.session.None?
    ensures Authentic(k, HandleHandshake(k, c, frame).conn) && HandleHandshake(k, c, frame).conn.self == c.self
  {
    if c.self.initiator {
      var r := ConsumeMessage2(k, c.self.secrets, frame);
      if r.Some? {
        Message2Vouches(k, c.self, frame);
      }
    } else if c.hs.step == 0 {
      if ConsumeMessage1(k, c.self.secrets, frame).Some? {
        Message1Vouches(k, c.self, frame);
      }
    } else if c.hs.half.Some? && ConsumeMessage3(k, c.self.secrets, c.hs.half.value, frame).Some? {
      Message3Vouches(k, c.self, c.hs.half.value, frame);
    }
  }

  lemma TurnAuthentic(k: Crypto, c: Conn, allowed: bool, now: int, nonce: Nonce)
    requires Authentic(k, c)
    ensures Authentic(k, HandleNext(k, c, allowed, now, nonce)) && HandleNext(k, c, allowed, now, nonce).self == c.self
  {
    if c.session.Some? {
      SealedGoesOn(k, c, allowed, now, nonce);
      GoesOnVouched(k, c.self, c.session.value, HandleNext(k, c, allowed, now, nonce).session.value);
    } else if c.rx.pending != [] && allowed {
      HelloAuthentic(k, Shifted(c), c.rx.pending[0]);
      var w := HandleHandshake(k, Shifted(c), c.rx.pending[0]);
      SameSession(k, w.conn, Settled(w));
    }
  }

  lemma SameSession(k: Crypto, c: Conn, c': Conn)
    requires Authentic(k, c) && c'.session == c.session && c'.hs == c.hs && c'.self == c.self
    ensures Authentic(k, c')
  {}

  lemma OpAuthentic(k: Crypto, c: Conn, op: Op)
    requires Authentic(k, c)
    ensures Authentic(k, Apply(k, c, op)) && Apply(k, c, op).self == c.self
  {
    var c' := Apply(k, c, op);
    match op
    case Turn(allowed, now, nonce) => TurnAuthentic(k, c, allowed, now, nonce);
    case Chunk(data) => SameSession(k, c, c');
    case HandshakeTimeout => SameSession(k, c, c');
    case SocketError => SameSession(k, c, c');
    case SocketClosed => SameSession(k, c, c');
    case SocketEnded => SameSession(k, c, c');
    case _ =>
      if c.session.Some? {
        CallGoesOn(k, c, op);
        GoesOnVouched(k, c.self, c.session.value, c'.session.value);
      } else {
        UnopenedCall(k, c, op);
      }
  }

  predicate IsCall(op: Op) {
    op.AppSend? || op.AppRekey? || op.AppClose? || op.Tick?
  }

  lemma CallGoesOn(k: Crypto, c: Conn, op: Op)
    requires c.session.Some? && IsCall(op)
    ensures var c' := Apply(k, c, op);
            c'.session.Some? && GoesOn(k, c.session.value, c'.session.value) && c'.hs == c.hs && c'.self == c.self
  {
    match op
    case AppSend(body, now, nonce, nonce2) => SendGoesOn(k, c, body, now, nonce, nonce2);
    case AppRekey(nonce) => RekeyGoesOn(k, c, nonce);
    case AppClose(nonce) => EmitGoesOn(k, c, nonce, Close);
    case Tick(now, nonce) => RekeyGoesOn(k, c, nonce);
  }

  lemma UnopenedCall(k: Crypto, c: Conn, op: Op)
    requires c.session.None? && IsCall(op)
    ensures Apply(k, c, op).session.None? && Apply(k, c, op).hs == c.hs && Apply(k, c, op).self == c.self
  {}

  lemma {:induction false} RunAuthentic(k: Crypto, c: Conn, ops: seq<Op>)
    requires Authentic(k, c)
    ensures Authentic(k, Run(k, c, ops)) && Run(k, c, ops).self == c.self
    decreases |ops|
  {
    if ops != [] {
      OpAuthentic(k, c, ops[0]);
      RunAuthentic(k, Apply(k, c, ops[0]), ops[1..]);
    }
  }

  /**
   * Authentication. Whatever bytes arrive and whatever else happens, an end has a session only with an
   * identity under which a signature of the peer's ephemeral key and its own was verified, and the keys of
   * the session are generations of the two that come from the exchange of these ephemeral keys.
   */
  lemma PeerAuthenticated(k: Crypto, initiator: bool, secrets: Secrets, policy: Policy, start: int, ops: seq<Op>)
    requires Run(k, Opened(k, initiator, secrets, policy, start), ops).session.Some?
    ensures var c := Run(k, Opened(k, initiator, secrets, policy, start), ops);
            && c.self.initiator == initiator && c.self.secrets == secrets
            && exists e, sig :: Vouched(k, c.self, c.session.value, e, sig)
  {
    RunAuthentic(k, Opened(k, initiator, secrets, policy, start), ops);
  }

  // ---- Which frames it acts on ----

  /** The message a plaintext carries: type 0, eight bytes of number, the body. */
  predicate IsData(pt: bytes) {
    |pt| >= 9 && pt[0] == 0
  }

  /** REKEY, its answer or CLOSE. */
  predicate IsControl(pt: bytes) {
    |pt| >= 1 && pt[0] in {1, 2, 3}
  }

  /**
   * What a frame leads to on an open session, whoever sent it. A message is emitted if and only if the frame
   * opens under the receiving key to a DATA plaintext with a number above the last one, within the limit of
   * messages per second; it has that number and body. A frame that does not open, or to a plaintext of no
   * known form, ends the end, as do a number not above the last and a message over the limit.
   */
  lemma FrameActsExactly(k: Crypto, x: Conn, now: int, nonce: Nonce)
    requires x.session.Some? && x.rx.pending != [] && !x.sock.closed && !x.sock.destroyed
    ensures var x', f := HandleNext(k, x, true, now, nonce), x.rx.pending[0];
            var pt := if |f| < 24 then None else k.decrypt(x.session.value.rxKey, f[..24], f[24..]);
            var count := FixedWindow.Bump(Some(x.rx.window), now, 1000).count;
            if pt.Some? && IsData(pt.value) then
              var num := Get64(pt.value, 1);
              if count <= x.self.policy.maxPerSecond && (x.rx.last.Some? ==> num > x.rx.last.value) then
                && x'.rx.got == x.rx.got + [Message(num, pt.value[9..], now)]
                && x'.rx.last == Some(num) && !x'.sock.destroyed
              else x'.rx.got == x.rx.got && x'.sock.destroyed
            else
              && x'.rx.got == x.rx.got
              && (!(pt.Some? && IsControl(pt.value)) ==> x'.sock.destroyed && x'.session == x.session)
    ensures var x' := HandleNext(k, x, true, now, nonce);
            x'.rx.pending == if x'.sock.closed then [] else x.rx.pending[1..]
  {}

  /** What the control messages do, whatever follows their first byte. */
  lemma ControlActs(k: Crypto, x: Conn, pt: bytes, now: int, nonce: Nonce)
    requires x.session.Some? && x.rx.pending != [] && !x.sock.closed && Writable(x)
    requires OpenUnder(k, x.session.value.rxKey, x.rx.pending[0]) == Some(pt) && IsControl(pt)
    ensures var x' := HandleNext(k, x, true, now, nonce);
            && (pt[0] == 3 ==>
                  && x'.sock.closed && x'.sock.ended && x'.sock.out == x.sock.out && x'.session == x.session
                  && x'.rx.pending == [])
            && (pt[0] == 2 ==>
                  && x'.session == Some(RekeyRx(k, x.session.value)) && !x'.tx.rekeying && x'.tx.rk == Rk(0, 0, now)
                  && x'.sock == x.sock)
            && (pt[0] == 1 && !x'.sock.destroyed ==>
                  && x'.session == Some(RekeyTx(k, RekeyRx(k, x.session.value))) && x'.tx == x.tx
                  && var a := SealUnder(k, x.session.value.txKey, nonce, [2]);
                     Frame.EncodeFrame(a).Some? && x'.sock.out == x.sock.out + Frame.EncodeFrame(a).value)
  {}

  /**
   * What arriving bytes do: nothing to a destroyed end; otherwise, even after CLOSE, the whole frames in what
   * was kept and what came wait for their turns, the rest is kept, and a length over 2 MiB ends an open end.
   */
  lemma ChunkActsExactly(c: Conn, chunk: bytes)
    ensures c.sock.destroyed ==> Receive(c, chunk) == c
    ensures !c.sock.destroyed ==>
              var c', d := Receive(c, chunk), Decode(Frames(2097152), c.rx.buf + chunk);
              && c'.rx.buf == d.rest
              && (!d.failed ==> c' == c.(rx := c.rx.(buf := d.rest, pending := c.rx.pending + Frame.Payloads(d.units))))
              && (d.failed && !c.sock.closed ==> c'.sock.destroyed && c'.sock.closed && c'.rx.pending == [])
              && (d.failed && c.sock.closed ==> c'.sock == c.sock && c'.rx.pending == c.rx.pending)
  {}

  // ---- Numbers ----

  /** How many calls of `send` found a session with numbers left, or just used them up. */
  function Attempts(k: Crypto, c: Conn, ops: seq<Op>): nat
    decreases |ops|
  {
    if ops == [] then 0
    else (if ops[0].AppSend? && c.session.Some? then 1 else 0) + Attempts(k, Apply(k, c, ops[0]), ops[1..])
  }

  lemma SendNumbers(k: Crypto, c: Conn, body: bytes, now: int, nonce: Nonce, nonce2: Nonce)
    ensures Send(k, c, body, now, nonce, nonce2).conn.tx.num == c.tx.num + if c.session.Some? then 1 else 0
  {
    var w := SendData(k, c, body, nonce);
    if c.session.Some? && c.tx.num + 1 < U64 {
      EmitTx(k, Numbered(c), nonce, Data(c.tx.num + 1, body));
    }
    StartRekeyNumber(k, w.conn, nonce2);
  }

  lemma EmitTx(k: Crypto, c: Conn, nonce: Nonce, p: Plain)
    requires c.session.Some?
    ensures Emit(k, c, nonce, p).conn.tx == c.tx
  {}

  lemma StartRekeyNumber(k: Crypto, c: Conn, nonce: Nonce)
    ensures StartRekey(k, c, nonce).tx.num == c.tx.num
  {
    if c.session.Some? {
      EmitTx(k, c.(tx := c.tx.(rekeying := true)), nonce, Rekey);
    }
  }

  lemma TurnNumbers(k: Crypto, c: Conn, allowed: bool, now: int, nonce: Nonce)
    ensures HandleNext(k, c, allowed, now, nonce).tx.num == c.tx.num
  {}

  lemma OpNumbers(k: Crypto, c: Conn, op: Op)
    ensures Apply(k, c, op).tx.num == c.tx.num + if op.AppSend? && c.session.Some? then 1 else 0
  {
    match op
    case AppSend(body, now, nonce, nonce2) => SendNumbers(k, c, body, now, nonce, nonce2);
    case AppRekey(nonce) => StartRekeyNumber(k, c, nonce);
    case Tick(now, nonce) => StartRekeyNumber(k, c, nonce);
    case AppClose(nonce) => if c.session.Some? { EmitTx(k, c, nonce, Close); }
    case Turn(allowed, now, nonce) => TurnNumbers(k, c, allowed, now, nonce);
    case _ =>
  }

  lemma {:induction false} RunNumbers(k: Crypto, c: Conn, ops: seq<Op>)
    ensures Run(k, c, ops).tx.num == c.tx.num + Attempts(k, c, ops)
    decreases |ops|
  {
    if ops != [] {
      OpNumbers(k, c, ops[0]);
      RunNumbers(k, Apply(k, c, ops[0]), ops[1..]);
    }
  }

  /** The numbers of an end count its calls of `send` on a session, from 1: each gets the next, thrown or not. */
  lemma NumbersCountSends(k: Crypto, initiator: bool, secrets: Secrets, policy: Policy, start: int, ops: seq<Op>)
    ensures Run(k, Opened(k, initiator, secrets, policy, start), ops).tx.num
         == Attempts(k, Opened(k, initiator, secrets, policy, start), ops)
  {
    RunNumbers(k, Opened(k, initiator, secrets, policy, start), ops);
  }
}
