/** When exactly a body that `send` accepted reaches the application at the other end. */
module SessionDelivery {
  import opened Bytes
  import opened Frame
  import opened Handshake
  import opened SecureConnection
  import opened SessionLink
  import opened SessionPair
  import opened SessionQueue
  import opened SessionRun
  import opened SessionSafety
  import opened StreamCodec

  ghost predicate StartsWithFrame(chunk: bytes, f: bytes) {
    EncodeFrame(f).Some? && EncodeFrame(f).value <= chunk
  }

  /** The first frame of a chunk, when it fits and nothing was undecoded, waits first for its turn. */
  lemma FrameArrives(y: Conn, f: bytes, chunk: bytes)
    requires !y.sock.destroyed && y.rx.buf == [] && y.rx.pending == [] && |f| <= SESSION_MAX_FRAME
    requires StartsWithFrame(chunk, f) && !Receive(y, chunk).sock.destroyed && !y.sock.closed
    ensures var y' := Receive(y, chunk);
            y'.rx.pending != [] && y'.rx.pending[0] == f
  {
    var fmt, u := Frames(SESSION_MAX_FRAME), EncodeFrame(f).value;
    var more := chunk[|u|..];
    assert chunk == u + more;
    EncodeFrameIsUnit(SESSION_MAX_FRAME, f);
    NextStable(fmt, u, more);
    assert [] + chunk == chunk;
    CutHead(u, more);
    var d := Decode(fmt, chunk);
    assert d.units[0] == u;
    assert [] + Payloads(d.units) == Payloads(d.units);
  }

  /** What arriving bytes leave alone at an end that goes on reading. */
  lemma ArrivalKeeps(y: Conn, chunk: bytes)
    ensures var y' := Receive(y, chunk);
            && y'.rx.got == y.rx.got && y'.rx.last == y.rx.last && y'.rx.window == y.rx.window
            && y'.session == y.session && y'.self == y.self
            && (!y'.sock.destroyed ==> y'.sock == y.sock)
            && (y'.sock.destroyed ==> y'.rx.pending == [] || y.sock.destroyed)
  {}

  /** A turn tells the application at most one message, and none without a frame. */
  lemma IdleTurn(k: Crypto, y: Conn, allowed: bool, now: int, nonce: Nonce)
    requires y.rx.pending == []
    ensures HandleNext(k, y, allowed, now, nonce) == y
  {}

  /** The DATA message whose turn it is, on an open end: emitted unless one of the two limits says no. */
  lemma DataTurnTells(k: Crypto, y: Conn, p: Plain, allowed: bool, now: int, nonce: Nonce)
    requires Reads(k, y, p) && p.Data? && !y.sock.destroyed
    ensures Told(HandleNext(k, y, allowed, now, nonce).rx.got)
         == Told(y.rx.got) + if allowed && !OverRate(y, now) then [p.body] else []
  {
    if allowed {
      TurnActs(k, y, p, now, nonce);
      DataIs(k, y, p, now, nonce);
    } else {
      NextDenied(k, y, now, nonce);
    }
    assert Told(y.rx.got) + [] == Told(y.rx.got);
  }

  /** A `send` that returns on an end that is not closed had a number and a frame that can be encoded. */
  lemma SendFits(k: Crypto, x: Conn, body: bytes, now: int, nonce: Nonce, nonce2: Nonce)
    requires Send(k, x, body, now, nonce, nonce2).Done? && !x.sock.closed
    ensures x.session.Some? && x.tx.num + 1 < U64 && EncodeFrame(FrameOf(k, x, body, nonce)).Some?
  {}

  lemma SendSize(k: Crypto, x: Conn, body: bytes, now: int, nonce: Nonce, nonce2: Nonce)
    requires Laws(k) && Send(k, x, body, now, nonce, nonce2).Done? && !x.sock.closed
    ensures x.session.Some? && x.tx.num + 1 < U64 && |FrameOf(k, x, body, nonce)| == |body| + 49 && |body| + 49 < U32
  {
    SendFits(k, x, body, now, nonce, nonce2);
    FrameLength(k, x, body, nonce);
  }

  /** At rest the receiver holds the key of the next frame, and its number will be new. */
  lemma AtRest(k: Crypto, kx: bytes, ky: bytes, x: Conn, y: Conn, fx: Flight, fy: Flight)
    requires Pair(k, kx, ky, x, y, fx, fy) && Writable(x) && !y.sock.destroyed && Idle(x, y)
    ensures fx == NOTHING && !y.sock.closed && Sending(x).txGen == Receiving(y).rxGen && Receiving(y).last <= x.tx.num
    ensures x.session.Some? && y.session.Some? ==> x.session.value.txKey == y.session.value.rxKey
  {
    NothingInFlight(k, kx, Sending(x), Receiving(y), fx.h, fx.q);
  }

  /** The frame of the body opens at the receiver that has just decoded it. */
  lemma FrameReads(k: Crypto, x: Conn, y: Conn, body: bytes, nonce: Nonce)
    requires Laws(k) && x.session.Some? && y.session.Some? && x.session.value.txKey == y.session.value.rxKey
    requires x.tx.num + 1 < U64 && Receiving(y).last <= x.tx.num
    requires y.rx.pending != [] && y.rx.pending[0] == FrameOf(k, x, body, nonce) && !y.sock.closed
    ensures Reads(k, y, Data(x.tx.num + 1, body))
  {
    var p := Data(x.tx.num + 1, body);
    PlainRoundTrip(p);
    OpenSealed(k, x.session.value.txKey, nonce, PlainBytes(p));
  }

  /** The whole wire of `x` reaches `y`, and `y` takes one turn. */
  function Delivery(k: Crypto, x: Conn, y: Conn, allowed: bool, now: int, nonce: Nonce): Conn {
    HandleNext(k, Receive(y, x.sock.out[..|x.sock.out|]), allowed, now, nonce)
  }

  /** All that was written on an empty wire is all that is on it. */
  lemma WholeWire(out: bytes, before: bytes, written: bytes)
    requires out == before + written && before == []
    ensures out[..|out|] == written
  {}

  lemma WholeSend(k: Crypto, x: Conn, body: bytes, now: int, nonce: Nonce, nonce2: Nonce, written: bytes)
    requires x.sock.out == [] && Send(k, x, body, now, nonce, nonce2).conn.sock.out == x.sock.out + written
    ensures var out := Send(k, x, body, now, nonce, nonce2).conn.sock.out;
            out[..|out|] == written
  {
    WholeWire(Send(k, x, body, now, nonce, nonce2).conn.sock.out, x.sock.out, written);
  }

  /** What `send` wrote on an empty wire arrives as its DATA frame and whatever followed it. */
  lemma SendArrives(k: Crypto, kx: bytes, ky: bytes, x: Conn, body: bytes, now: int, nonce: Nonce, nonce2: Nonce)
    returns (written: bytes)
    requires Laws(k) && Keyed(k, kx, ky, x) && x.session.Some? && Writable(x)
    requires x.tx.num + 1 < U64 && |body| < U32 - 49
    ensures Send(k, x, body, now, nonce, nonce2).conn.sock.out == x.sock.out + written
    ensures StartsWithFrame(written, FrameOf(k, x, body, nonce))
  {
    var more := SendWrites(k, kx, ky, x, body, now, nonce, nonce2);
    written := EncodeFrame(FrameOf(k, x, body, nonce)).value + more;
  }

  /** A frame that reads as DATA arrives at an end at rest and is handled. */
  lemma ArrivedTurn(k: Crypto, y: Conn, y1: Conn, f: bytes, chunk: bytes, p: Plain, allowed: bool, now: int, nonce: Nonce)
    requires !y.sock.destroyed && !y.sock.closed && y.rx.buf == [] && y.rx.pending == [] && |f| <= SESSION_MAX_FRAME
    requires y1 == Receive(y, chunk) && StartsWithFrame(chunk, f) && !y1.sock.destroyed
    requires y1.rx.pending != [] && y1.rx.pending[0] == f ==> Reads(k, y1, p)
    requires p.Data?
    ensures Told(HandleNext(k, y1, allowed, now, nonce).rx.got)
         == Told(y.rx.got) + if allowed && !OverRate(y, now) then [p.body] else []
  {
    FrameArrives(y, f, chunk);
    ArrivalKeeps(y, chunk);
    DataTurnTells(k, y1, p, allowed, now, nonce);
  }

  lemma AddNone<T>(s: seq<T>)
    ensures s + [] == s
  {}

  /** An oversized frame ends an end at rest, and its turn does nothing. */
  lemma RefusedTurn(k: Crypto, y: Conn, chunk: bytes, allowed: bool, now: int, nonce: Nonce)
    requires !y.sock.destroyed && Receive(y, chunk).sock.destroyed
    ensures HandleNext(k, Receive(y, chunk), allowed, now, nonce).rx.got == y.rx.got
  {
    ArrivalKeeps(y, chunk);
    IdleTurn(k, Receive(y, chunk), allowed, now, nonce);
  }

  /** The frame of a `send` arrives at an end at rest that holds its key, and is handled. */
  lemma SendDelivery(k: Crypto, x: Conn, y: Conn, body: bytes, nonce: Nonce, chunk: bytes,
                     allowed: bool, t: int, nonce3: Nonce)
    requires Laws(k) && x.session.Some? && y.session.Some? && x.session.value.txKey == y.session.value.rxKey
    requires x.tx.num + 1 < U64 && Receiving(y).last <= x.tx.num
    requires |FrameOf(k, x, body, nonce)| == |body| + 49 && StartsWithFrame(chunk, FrameOf(k, x, body, nonce))
    requires !y.sock.destroyed && !y.sock.closed && y.rx.buf == [] && y.rx.pending == []
    requires Receive(y, chunk).sock.destroyed <==> |body| > MAX_BODY
    ensures Told(HandleNext(k, Receive(y, chunk), allowed, t, nonce3).rx.got)
         == Told(y.rx.got) + if |body| <= MAX_BODY && allowed && !OverRate(y, t) then [body] else []
  {
    var y1, f := Receive(y, chunk), FrameOf(k, x, body, nonce);
    if |body| > MAX_BODY {
      RefusedTurn(k, y, chunk, allowed, t, nonce3);
      AddNone(Told(y.rx.got));
    } else {
      ArrivalKeeps(y, chunk);
      if y1.rx.pending != [] && y1.rx.pending[0] == f {
        FrameReads(k, x, y1, body, nonce);
      }
      ArrivedTurn(k, y, y1, f, chunk, Data(x.tx.num + 1, body), allowed, t, nonce3);
    }
  }

  lemma WritableDelivery(k: Crypto, kx: bytes, ky: bytes, x: Conn, y: Conn, fx: Flight, fy: Flight, body: bytes,
                         now: int, nonce: Nonce, nonce2: Nonce, allowed: bool, t: int, nonce3: Nonce)
    requires Laws(k) && Pair(k, kx, ky, x, y, fx, fy) && x.session.Some? && y.session.Some?
    requires Writable(x) && !y.sock.destroyed && Idle(x, y) && Send(k, x, body, now, nonce, nonce2).Done?
    ensures Told(Delivery(k, Send(k, x, body, now, nonce, nonce2).conn, y, allowed, t, nonce3).rx.got)
         == Told(y.rx.got) + if |body| <= MAX_BODY && allowed && !OverRate(y, t) then [body] else []
  {
    SendSize(k, x, body, now, nonce, nonce2);
    AtRest(k, kx, ky, x, y, fx, fy);
    RefusedPair(k, kx, ky, x, y, fx, fy, body, now, nonce, nonce2);
    var chunk := SendArrives(k, kx, ky, x, body, now, nonce, nonce2);
    WholeSend(k, x, body, now, nonce, nonce2, chunk);
    SendDelivery(k, x, y, body, nonce, chunk, allowed, t, nonce3);
  }

  /**
   * Exactly when `send` throws: without a session, with the numbers of 64 bits used up, or on a frame whose
   * length does not fit its field, unless the end is closed. It writes nothing then, but a number is used up.
   */
  lemma SendThrowsExactly(k: Crypto, x: Conn, body: bytes, now: int, nonce: Nonce, nonce2: Nonce)
    requires Laws(k)
    ensures var r := Send(k, x, body, now, nonce, nonce2);
            && (r.Threw? <==> x.session.None? || x.tx.num + 1 >= 0x1_0000_0000_0000_0000
                              || (!x.sock.closed && |body| + 49 >= 0x1_0000_0000))
            && (r.Threw? ==> r.conn == if x.session.None? then x else x.(tx := x.tx.(num := x.tx.num + 1)))
  {
    if x.session.Some? && x.tx.num + 1 < U64 {
      FrameLength(k, x, body, nonce);
    }
  }

  /** An end that cannot write puts nothing on the wire, whatever it sends. */
  lemma MuteSend(k: Crypto, x: Conn, body: bytes, now: int, nonce: Nonce, nonce2: Nonce)
    requires !Writable(x)
    ensures Send(k, x, body, now, nonce, nonce2).conn.sock == x.sock
  {
    if x.session.Some? && x.tx.num + 1 < U64 {
      MuteEmit(k, Numbered(x), nonce, Data(x.tx.num + 1, body));
    }
    MuteRekey(k, SendData(k, x, body, nonce).conn, now, nonce2);
  }

  lemma MuteEmit(k: Crypto, x: Conn, nonce: Nonce, p: Plain)
    requires !Writable(x) && x.session.Some?
    ensures Emit(k, x, nonce, p).conn.sock == x.sock
  {}

  lemma MuteRekey(k: Crypto, x: Conn, now: int, nonce: Nonce)
    requires !Writable(x)
    ensures MaybeAutoRekey(k, x, now, nonce).sock == x.sock
  {
    if x.session.Some? {
      MuteEmit(k, x.(tx := x.tx.(rekeying := true)), nonce, Rekey);
    }
  }

  /** Nothing arrives at an end to which nothing was written, and nothing is told to one that gave up. */
  lemma NothingDelivered(k: Crypto, y: Conn, out: bytes, allowed: bool, now: int, nonce: Nonce)
    requires y.rx.pending == [] && ((out == [] && y.rx.buf == []) || y.sock.destroyed)
    ensures HandleNext(k, Receive(y, out), allowed, now, nonce).rx.got == y.rx.got
  {
    assert y.rx.buf + [] == y.rx.buf && y.rx.pending + Payloads([]) == y.rx.pending;
  }

  lemma PairDelivery(k: Crypto, kx: bytes, ky: bytes, x: Conn, y: Conn, fx: Flight, fy: Flight, body: bytes,
                     now: int, nonce: Nonce, nonce2: Nonce, allowed: bool, t: int, nonce3: Nonce)
    requires Laws(k) && Pair(k, kx, ky, x, y, fx, fy) && x.session.Some?
    requires Writable(x) && !y.sock.destroyed ==> y.session.Some?
    requires Idle(x, y) && Send(k, x, body, now, nonce, nonce2).Done?
    ensures var reaches := Writable(x) && !y.sock.destroyed && |body| <= MAX_BODY && allowed && !OverRate(y, t);
            Told(Delivery(k, Send(k, x, body, now, nonce, nonce2).conn, y, allowed, t, nonce3).rx.got)
            == Told(y.rx.got) + if reaches then [body] else []
  {
    if Writable(x) && !y.sock.destroyed {
      WritableDelivery(k, kx, ky, x, y, fx, fy, body, now, nonce, nonce2, allowed, t, nonce3);
    } else {
      var out := Send(k, x, body, now, nonce, nonce2).conn.sock.out;
      if !Writable(x) {
        MuteSend(k, x, body, now, nonce, nonce2);
      }
      NothingDelivered(k, y, out[..|out|], allowed, t, nonce3);
      assert Told(y.rx.got) + [] == Told(y.rx.got);
    }
  }

  /** An open end that can write to a reading one has an open end opposite, when nothing is in flight. */
  lemma BothOpen(k: Crypto, u: Setup, s: Sys, fi: Flight, fr: Flight, side: Side)
    requires Laws(k) && Inv(k, u, s, fi, fr) && End(s, side).session.Some? && Writable(End(s, side))
    requires !End(s, Other(side)).sock.destroyed && Idle(End(s, side), End(s, Other(side)))
    ensures End(s, Other(side)).session.Some?
  {
    if side == I {
      NothingInFlight(k, FirstI(k, u), Sending(s.i), Receiving(s.r), fi.h, fi.q);
    }
  }

  lemma InvDelivery(k: Crypto, u: Setup, s: Sys, fi: Flight, fr: Flight, side: Side, body: bytes,
                    now: int, nonce: Nonce, nonce2: Nonce, allowed: bool, t: int, nonce3: Nonce)
    requires Laws(k) && Inv(k, u, s, fi, fr)
    requires End(s, side).session.Some? && Idle(End(s, side), End(s, Other(side)))
    requires Send(k, End(s, side), body, now, nonce, nonce2).Done?
    ensures var x, y := End(s, side), End(s, Other(side));
            var reaches := Writable(x) && !y.sock.destroyed && |body| <= MAX_BODY && allowed && !OverRate(y, t);
            Told(Delivery(k, Send(k, x, body, now, nonce, nonce2).conn, y, allowed, t, nonce3).rx.got)
            == Told(y.rx.got) + if reaches then [body] else []
  {
    if Writable(End(s, side)) && !End(s, Other(side)).sock.destroyed {
      BothOpen(k, u, s, fi, fr, side);
    }
    match side
    case I => PairDelivery(k, FirstI(k, u), FirstR(k, u), s.i, s.r, fi, fr, body, now, nonce, nonce2, allowed, t, nonce3);
    case R => PairDelivery(k, FirstR(k, u), FirstI(k, u), s.r, s.i, fr, fi, body, now, nonce, nonce2, allowed, t, nonce3);
  }

  lemma StepsDeliver(k: Crypto, s: Sys, side: Side, body: bytes, now: int, nonce: Nonce, nonce2: Nonce,
                     allowed: bool, t: int, nonce3: Nonce)
    ensures var s1 := Step(k, s, Act(side, AppSend(body, now, nonce, nonce2)));
            var s2 := Step(k, s1, Arrive(Other(side), |End(s1, side).sock.out|));
            var s3 := Step(k, s2, Act(Other(side), Turn(allowed, t, nonce3)));
            End(s3, Other(side))
            == Delivery(k, Send(k, End(s, side), body, now, nonce, nonce2).conn, End(s, Other(side)), allowed, t, nonce3)
  {
    var s1 := Step(k, s, Act(side, AppSend(body, now, nonce, nonce2)));
    ArriveIs(k, s1, Other(side), |End(s1, side).sock.out|);
  }

  /**
   * Exactly which accepted bodies arrive, in both directions. From an open session with nothing in flight,
   * `send` returns, the whole wire is delivered and the receiver takes one turn. The body is then emitted if
   * and only if the sender could write and the receiver reads, the body is at most `MAX_BODY` long, the
   * frame limiter allows the frame and the rate limit of the session the message. Nothing else is emitted.
   */
  lemma DeliveredExactly(k: Crypto, u: Setup, s: Sys, side: Side, body: bytes, now: int, nonce: Nonce, nonce2: Nonce,
                         allowed: bool, t: int, nonce3: Nonce)
    requires Laws(k) && Reachable(k, u, s)
    requires End(s, side).session.Some? && Idle(End(s, side), End(s, Other(side)))
    requires Send(k, End(s, side), body, now, nonce, nonce2).Done?
    ensures var x, y := End(s, side), End(s, Other(side));
            var s1 := Step(k, s, Act(side, AppSend(body, now, nonce, nonce2)));
            var s2 := Step(k, s1, Arrive(Other(side), |End(s1, side).sock.out|));
            var s3 := Step(k, s2, Act(Other(side), Turn(allowed, t, nonce3)));
            var reaches := Writable(x) && !y.sock.destroyed && |body| <= MAX_BODY && allowed && !OverRate(y, t);
            Told(End(s3, Other(side)).rx.got) == Told(y.rx.got) + if reaches then [body] else []
  {
    var fi, fr := ReachableInv(k, u, s);
    InvDelivery(k, u, s, fi, fr, side, body, now, nonce, nonce2, allowed, t, nonce3);
    StepsDeliver(k, s, side, body, now, nonce, nonce2, allowed, t, nonce3);
  }
}
