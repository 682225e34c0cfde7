/** How an end gives up: on a handshake that takes too long, a socket error, a closed socket, a denied frame. */
module SessionEnds {
  import opened Bytes
  import Frame
  import opened Handshake
  import opened SecureConnection
  import opened SessionDelivery
  import opened SessionPair
  import opened SessionRun
  import opened SessionSafety

  /** It reads and writes nothing any more, and has no frame left to handle. */
  predicate Gone(c: Conn) {
    c.sock.closed && c.sock.destroyed && c.rx.pending == []
  }

  /** What never changes again at an end that is gone: what the application was told, and whether it has a session. */
  predicate Frozen(c: Conn, c': Conn) {
    Gone(c') && c'.rx.got == c.rx.got && c'.session.Some? == c.session.Some?
  }

  lemma GoneSends(k: Crypto, c: Conn, body: bytes, now: int, nonce: Nonce, nonce2: Nonce)
    requires Gone(c)
    ensures Frozen(c, Send(k, c, body, now, nonce, nonce2).conn) && Send(k, c, body, now, nonce, nonce2).conn.sock == c.sock
  {
    var w := SendData(k, c, body, nonce);
    assert Frozen(c, w.conn) && w.conn.sock == c.sock;
  }

  lemma GoneActs(k: Crypto, c: Conn, op: Op)
    requires Gone(c)
    ensures Frozen(c, Apply(k, c, op)) && Apply(k, c, op).sock.out == c.sock.out
  {
    match op
    case AppSend(body, now, nonce, nonce2) => GoneSends(k, c, body, now, nonce, nonce2);
    case _ =>
  }

  lemma GoneStep(k: Crypto, s: Sys, e: Event, side: Side)
    requires Gone(End(s, side))
    ensures Frozen(End(s, side), End(Step(k, s, e), side))
  {
    if e.Act? && e.side == side {
      GoneActs(k, End(s, side), e.op);
    }
  }

  lemma {:induction false} GoneForGood(k: Crypto, u: Setup, states: seq<Sys>, events: seq<Event>, side: Side, j: nat, m: nat)
    requires Trace(k, u, states, events) && j <= m <= |events| && Gone(End(states[j], side))
    ensures Frozen(End(states[j], side), End(states[m], side))
    decreases m
  {
    if j < m {
      GoneForGood(k, u, states, events, side, j, m - 1);
      assert Follows(k, states, events, m - 1);
      GoneStep(k, states[m - 1], events[m - 1], side);
    }
  }

  /** What makes an open end give up: the handshake timer while there is no session, an error, a denied frame. */
  predicate GivesUp(c: Conn, op: Op) {
    || op.SocketClosed?
    || (!c.sock.closed && op.SocketError?)
    || (!c.sock.closed && op.HandshakeTimeout? && c.session.None?)
    || (!c.sock.closed && op.Turn? && !op.allowed && c.rx.pending != [])
  }

  lemma GivingUp(k: Crypto, c: Conn, op: Op)
    requires GivesUp(c, op)
    ensures Frozen(c, Apply(k, c, op)) && Apply(k, c, op).sock == c.sock.(closed := true, destroyed := true)
  {}

  /**
   * Giving up is for good: from then on the end is gone, nothing more is emitted there, and a session not
   * open by then never opens.
   */
  lemma GivenUp(k: Crypto, u: Setup, states: seq<Sys>, events: seq<Event>, side: Side, j: nat, m: nat)
    requires Trace(k, u, states, events) && j < m <= |events|
    requires events[j].Act? && events[j].side == side && GivesUp(End(states[j], side), events[j].op)
    ensures Frozen(End(states[j], side), End(states[m], side))
  {
    assert Follows(k, states, events, j);
    GivingUp(k, End(states[j], side), events[j].op);
    GoneForGood(k, u, states, events, side, j + 1, m);
  }

  /** The handshake timer does nothing to an end that has its session, nor it, an error or `close` to one that has closed. */
  lemma LateTimer(k: Crypto, c: Conn, op: Op)
    requires (op.HandshakeTimeout? && c.session.Some?)
             || ((op.HandshakeTimeout? || op.SocketError? || op.AppClose?) && c.sock.closed)
    ensures Apply(k, c, op) == c
  {}

  /** An end that finishes its writing side goes on reading as before, but nothing it does is written. */
  lemma EndedIsMute(k: Crypto, c: Conn, op: Op)
    requires c.sock.ended || op.SocketEnded?
    ensures Apply(k, c, op).sock.ended && Apply(k, c, op).sock.out == c.sock.out
  {
    match op
    case AppSend(body, now, nonce, nonce2) => MuteSend(k, c, body, now, nonce, nonce2);
    case Turn(allowed, now, nonce) => EndedTurn(k, c, allowed, now, nonce);
    case _ =>
  }

  lemma EndedSealed(k: Crypto, c: Conn, frame: bytes, now: int, nonce: Nonce)
    requires c.sock.ended && c.session.Some?
    ensures var c' := HandleSealed(k, c, frame, now, nonce).conn; c'.sock.ended && c'.sock.out == c.sock.out
  {}

  lemma EndedHello(k: Crypto, c: Conn, frame: bytes)
    requires c.sock.ended && c.session.None?
    ensures var c' := HandleHandshake(k, c, frame).conn; c'.sock.ended && c'.sock.out == c.sock.out
  {}

  lemma EndedTurn(k: Crypto, c: Conn, allowed: bool, now: int, nonce: Nonce)
    requires c.sock.ended
    ensures var c' := HandleNext(k, c, allowed, now, nonce); c'.sock.ended && c'.sock.out == c.sock.out
  {
    if c.rx.pending != [] {
      if c.session.Some? {
        EndedSealed(k, Shifted(c), c.rx.pending[0], now, nonce);
      } else {
        EndedHello(k, Shifted(c), c.rx.pending[0]);
      }
    }
  }

  /** `close` on an open end: CLOSE is sealed under the sending key and written last; then the end is mute. */
  lemma CloseSays(k: Crypto, c: Conn, nonce: Nonce)
    requires Laws(k) && c.session.Some? && Writable(c)
    ensures var f := SealUnder(k, c.session.value.txKey, nonce, [3]);
            && Frame.EncodeFrame(f).Some?
            && Apply(k, c, AppClose(nonce)).sock
               == c.sock.(ended := true, out := c.sock.out + Frame.EncodeFrame(f).value)
  {
    OpenSealed(k, c.session.value.txKey, nonce, [3]);
  }
}
