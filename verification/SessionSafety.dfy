/** What every reachable state of a session between two honest ends satisfies. */
module SessionSafety {
  import opened Bytes
  import opened Frame
  import opened Handshake
  import opened SecureConnection
  import opened SessionLink
  import opened SessionPair
  import opened SessionQueue
  import opened SessionRun
  import opened StreamCodec

  lemma RekeySends(k: Crypto, c: Conn, now: int, nonce: Nonce)
    ensures StartRekey(k, c, nonce).tx.sent == c.tx.sent && MaybeAutoRekey(k, c, now, nonce).tx.sent == c.tx.sent
  {}

  lemma TurnSends(k: Crypto, c: Conn, allowed: bool, now: int, nonce: Nonce)
    ensures HandleNext(k, c, allowed, now, nonce).tx.sent == c.tx.sent
  {}

  lemma SendSends(k: Crypto, c: Conn, body: bytes, now: int, nonce: Nonce, nonce2: Nonce)
    ensures var r := Send(k, c, body, now, nonce, nonce2);
            r.conn.tx.sent == c.tx.sent + if r.Done? then [body] else []
  {
    var w := SendData(k, c, body, nonce);
    RekeySends(k, w.conn, now, nonce2);
  }

  /** Only a `send` that returns adds to the bodies sent, and it adds its own. */
  lemma SentLog(k: Crypto, c: Conn, op: Op)
    ensures Apply(k, c, op).tx.sent == c.tx.sent
            + if op.AppSend? && Send(k, c, op.body, op.now, op.nonce, op.nonce2).Done? then [op.body] else []
  {
    match op
    case AppSend(body, now, nonce, nonce2) => SendSends(k, c, body, now, nonce, nonce2);
    case AppRekey(nonce) => RekeySends(k, c, 0, nonce);
    case Tick(now, nonce) => RekeySends(k, c, now, nonce);
    case Turn(allowed, now, nonce) => TurnSends(k, c, allowed, now, nonce);
    case _ =>
  }

  /**
   * End-to-end FIFO. In both directions the messages emitted are, in order and without repetition, the
   * first bodies whose `send` returned.
   */
  lemma FifoDelivery(k: Crypto, u: Setup, s: Sys)
    requires Laws(k) && Reachable(k, u, s)
    ensures Told(s.r.rx.got) <= s.i.tx.sent && Told(s.i.rx.got) <= s.r.tx.sent
  {
    var fi, fr := ReachableInv(k, u, s);
  }

  /** The keys of both sessions come from one exchange, each generation from the one before. */
  lemma MirroredKeys(k: Crypto, u: Setup, s: Sys)
    requires Laws(k) && Reachable(k, u, s) && s.r.session.Some?
    ensures s.i.session.Some?
    ensures var i, r := s.i.session.value, s.r.session.value;
            && i.txKey == KeyAt(k, FirstI(k, u), i.txGen) && r.rxKey == KeyAt(k, FirstI(k, u), r.rxGen)
            && r.txKey == KeyAt(k, FirstR(k, u), r.txGen) && i.rxKey == KeyAt(k, FirstR(k, u), i.rxGen)
            && (i.txGen == r.rxGen ==> i.txKey == r.rxKey) && (r.txGen == i.rxGen ==> r.txKey == i.rxKey)
            && i.peerId == k.idOf(u.r.id) && r.peerId == k.idOf(u.i.id)
  {
    var fi, fr := ReachableInv(k, u, s);
  }

  /** The frames on their way from `x` to `y`: a handshake message, if any, then sealed messages. */
  ghost predicate OnTheWay(k: Crypto, base: bytes, x: Conn, y: Conn, f: Flight) {
    Carries(y.rx.pending, y.rx.buf, x.sock.out, InFlight(k, base, Receiving(y).rxGen, f.h, f.q))
  }

  /** The bodies emitted at `y` and those in flight to it, against those sent by `x`. */
  ghost predicate Queued(x: Conn, y: Conn, f: Flight) {
    && Told(y.rx.got) + Bodies(f.q) <= x.tx.sent
    && (Writable(x) ==> Told(y.rx.got) + Bodies(f.q) == x.tx.sent)
  }

  /**
   * Rekey phases, from the first moment of a session on. Every sealed frame in flight is under its
   * receiver's generation plus the number of renewals ahead of it, the sender's generation is that of the
   * next frame, and an end awaits a renewal exactly when its REKEY or the answer to it is in flight, even
   * if both ends renew at once. Only a handshake message can be ahead of them, and only before the
   * responder's session is open. What was emitted and what is in flight are, in order, the first bodies
   * sent, and all of them while the sender can write: each direction is a queue.
   */
  lemma RekeyPhases(k: Crypto, u: Setup, s: Sys) returns (fi: Flight, fr: Flight)
    requires Laws(k) && Reachable(k, u, s)
    ensures !s.r.sock.destroyed ==> OnTheWay(k, FirstI(k, u), s.i, s.r, fi)
    ensures !s.i.sock.destroyed ==> OnTheWay(k, FirstR(k, u), s.r, s.i, fr)
    ensures Writable(s.i) && !s.r.sock.destroyed ==> Sending(s.i).txGen == Receiving(s.r).rxGen + Shifts(fi.q)
    ensures Writable(s.r) && !s.i.sock.destroyed ==> Sending(s.r).txGen == Receiving(s.i).rxGen + Shifts(fr.q)
    ensures Writable(s.i) && Writable(s.r) ==>
              && Rekeys(fi.q) + Acks(fr.q) == (if s.i.tx.rekeying then 1 else 0)
              && Rekeys(fr.q) + Acks(fi.q) == (if s.r.tx.rekeying then 1 else 0)
    ensures CloseLast(fi.q) && CloseLast(fr.q)
    ensures !s.r.sock.destroyed ==> Queued(s.i, s.r, fi)
    ensures !s.i.sock.destroyed ==> Queued(s.r, s.i, fr)
    ensures s.i.session.None? ==> fi.q == []
    ensures s.r.session.None? ==> fr.q == []
    ensures s.r.session.Some? ==> fi.h == [] && fr.h == []
    ensures s.r.session.None? && s.i.session.Some? ==> fr.h == [] && fi.h in [[], [Message3(k, u.i, u.r)]]
  {
    fi, fr := ReachableInv(k, u, s);
  }

  function End(s: Sys, side: Side): Conn {
    if side == I then s.i else s.r
  }

  /** A frame that reads as a message is handled without a throw. */
  lemma ReadsHandles(k: Crypto, kx: bytes, ky: bytes, x: Conn, p: Plain, now: int, nonce: Nonce)
    requires Laws(k) && Reads(k, x, p) && Keyed(k, kx, ky, x)
    ensures HandleFrame(k, Shifted(x), x.rx.pending[0], now, nonce).Done?
  {
    if p.Rekey? {
      EmitIs(k, kx, Shifted(x).(session := Some(RekeyRx(k, x.session.value))), nonce, RekeyAck);
    }
  }

  lemma SealedHandles(k: Crypto, kx: bytes, ky: bytes, x: Conn, y: Conn, fx: Flight, fy: Flight, now: int, nonce: Nonce)
    requires Laws(k) && Pair(k, kx, ky, x, y, fx, fy) && x.session.Some? && x.rx.pending != [] && fy.h == []
    ensures HandleFrame(k, Shifted(x), x.rx.pending[0], now, nonce).Done?
    ensures HandleNext(k, x, true, now, nonce).sock.destroyed ==> OverRate(x, now)
  {
    TurnReads(k, kx, ky, x, y, fx, fy);
    ReadsHandles(k, kx, ky, x, fy.q[0].plain, now, nonce);
    var fx', fy' := SealedTurn(k, kx, ky, x, y, fx, fy, now, nonce);
  }

  /** During the handshake too: a frame whose handling threw would have ended its receiver. */
  lemma HelloHandles(k: Crypto, x: Conn, now: int, nonce: Nonce)
    requires x.rx.pending != [] && !HandleNext(k, x, true, now, nonce).sock.destroyed && !x.sock.closed
    ensures HandleFrame(k, Shifted(x), x.rx.pending[0], now, nonce).Done? || x.session.Some?
  {}

  /**
   * No frame between honest ends is ever refused: its handling does not throw, so it authenticates, has a
   * known form and a fresh sequence number; only the rate limit of the session can end the receiver.
   */
  lemma NoFrameRefused(k: Crypto, u: Setup, s: Sys, side: Side, now: int, nonce: Nonce)
    requires Laws(k) && Reachable(k, u, s) && End(s, side).rx.pending != []
    ensures var x := End(s, side);
            && HandleFrame(k, Shifted(x), x.rx.pending[0], now, nonce).Done?
            && (HandleNext(k, x, true, now, nonce).sock.destroyed ==> x.session.Some? && OverRate(x, now))
  {
    var fi, fr := ReachableInv(k, u, s);
    match side
    case I =>
      PendingIsOpen(k, FirstI(k, u), FirstR(k, u), s.i, s.r, fi, fr);
      if s.i.session.Some? {
        SealedHandles(k, FirstI(k, u), FirstR(k, u), s.i, s.r, fi, fr, now, nonce);
      } else {
        var f := Turn2Keeps(k, u, s, fi, fr, now, nonce);
        HelloHandles(k, s.i, now, nonce);
      }
    case R =>
      PendingIsOpen(k, FirstR(k, u), FirstI(k, u), s.r, s.i, fr, fi);
      if s.r.session.Some? {
        SealedHandles(k, FirstR(k, u), FirstI(k, u), s.r, s.i, fr, fi, now, nonce);
      } else {
        if s.r.hs.step == 0 {
          var f := Turn1Keeps(k, u, s, fi, fr, now, nonce);
        } else {
          Turn3Keeps(k, u, s, fi, fr, now, nonce);
        }
        HelloHandles(k, s.r, now, nonce);
      }
  }

  // ---- Sizes ----

  /** The longest body whose frame the decoder of the other end accepts. */
  const MAX_BODY: nat := SESSION_MAX_FRAME - 9 - NONCE_LEN - TAG_LEN

  /** It is 2 MiB less 49 bytes. */
  lemma MaxBodyIs()
    ensures MAX_BODY == 2 * 1024 * 1024 - 49
  {}

  ghost predicate Fits(sent: seq<bytes>) {
    forall b :: b in sent ==> |b| <= MAX_BODY
  }

  lemma {:induction false} BodyInFlight(q: seq<Item>, j: nat)
    requires j < |q| && q[j].plain.Data?
    ensures q[j].plain.body in Bodies(q)
  {
    if j > 0 {
      BodyInFlight(q[1..], j - 1);
    }
  }

  lemma FrameFits(k: Crypto, base: bytes, r: Receiver, h: seq<bytes>, q: seq<Item>, m: nat)
    requires Laws(k) && Fits(Bodies(q))
    requires forall j :: 0 <= j < |h| ==> |h[j]| <= SESSION_MAX_FRAME
    requires m < |InFlight(k, base, r.rxGen, h, q)|
    ensures |InFlight(k, base, r.rxGen, h, q)[m]| <= SESSION_MAX_FRAME
  {
    FramesCount(k, base, r.rxGen, q);
    if m >= |h| {
      var it := q[m - |h|];
      FrameLengthAt(k, base, r.rxGen, q, m - |h|);
      PlainRoundTrip(it.plain);
      if it.plain.Data? {
        BodyInFlight(q, m - |h|);
      }
    }
  }

  /** What is in flight was sent. */
  lemma SentFits(k: Crypto, base: bytes, s: Sender, r: Receiver, h: seq<bytes>, q: seq<Item>)
    requires Link(k, base, s, r, h, q) && !r.destroyed && Fits(s.sent)
    ensures Fits(Bodies(q))
  {
    var all := r.told + Bodies(q);
    forall b | b in Bodies(q)
      ensures |b| <= MAX_BODY
    {
      assert b in all;
    }
  }

  lemma ChunkFits(k: Crypto, kx: bytes, ky: bytes, x: Conn, y: Conn, fx: Flight, fy: Flight, n: nat)
    requires Laws(k) && Pair(k, kx, ky, x, y, fx, fy) && n <= |y.sock.out| && Fits(Bodies(fy.q))
    requires forall j :: 0 <= j < |fy.h| ==> |fy.h[j]| <= SESSION_MAX_FRAME
    ensures Receive(x, y.sock.out[..n]).sock.destroyed == x.sock.destroyed
  {
    if !x.sock.destroyed && Receive(x, y.sock.out[..n]).sock.destroyed {
      var f, m := ChunkKeeps(k, kx, ky, x, y, fx, fy, n);
      FrameFits(k, ky, Receiving(x), fy.h, fy.q, m);
      assert false;
    }
  }

  /** The same, told by what was sent. */
  lemma SentChunkFits(k: Crypto, kx: bytes, ky: bytes, x: Conn, y: Conn, fx: Flight, fy: Flight, n: nat)
    requires Laws(k) && Pair(k, kx, ky, x, y, fx, fy) && n <= |y.sock.out| && Fits(y.tx.sent)
    requires forall j :: 0 <= j < |fy.h| ==> |fy.h[j]| <= SESSION_MAX_FRAME
    ensures Receive(x, y.sock.out[..n]).sock.destroyed == x.sock.destroyed
  {
    if !x.sock.destroyed {
      SentFits(k, ky, Sending(y), Receiving(x), fy.h, fy.q);
      ChunkFits(k, kx, ky, x, y, fx, fy, n);
    }
  }

  lemma HellosFit(k: Crypto, u: Setup, s: Sys, fi: Flight, fr: Flight)
    requires Laws(k) && Inv(k, u, s, fi, fr)
    ensures forall j :: 0 <= j < |fi.h| ==> |fi.h[j]| <= SESSION_MAX_FRAME
    ensures forall j :: 0 <= j < |fr.h| ==> |fr.h[j]| <= SESSION_MAX_FRAME
  {
    HelloSizes(k, u);
    LinkHellos(k, u, s, fi, fr);
  }

  lemma HelloSizes(k: Crypto, u: Setup)
    requires Laws(k)
    ensures |Message1(k, u.i)| <= SESSION_MAX_FRAME && |Message2(k, u.i, u.r)| <= SESSION_MAX_FRAME
    ensures |Message3(k, u.i, u.r)| <= SESSION_MAX_FRAME
  {
    HandshakeAgreement(k, u.i, u.r);
  }

  /** At most one handshake message is in flight. */
  lemma LinkHellos(k: Crypto, u: Setup, s: Sys, fi: Flight, fr: Flight)
    requires Laws(k) && Inv(k, u, s, fi, fr)
    ensures fi.h in [[], [Message1(k, u.i)], [Message3(k, u.i, u.r)]]
    ensures fr.h in [[], [Message2(k, u.i, u.r)]]
  {}

  function Other(side: Side): Side {
    if side == I then R else I
  }

  lemma ArriveIs(k: Crypto, s: Sys, side: Side, n: nat)
    ensures var out := End(s, Other(side)).sock.out;
            End(Step(k, s, Arrive(side, n)), side) == Receive(End(s, side), out[..Upto(n, out)])
  {}

  /** As long as no body sent is longer than `MAX_BODY`, no chunk ends its receiver. */
  lemma NoChunkRefused(k: Crypto, u: Setup, s: Sys, side: Side, n: nat)
    requires Laws(k) && Reachable(k, u, s) && Fits(End(s, Other(side)).tx.sent)
    ensures End(Step(k, s, Arrive(side, n)), side).sock.destroyed == End(s, side).sock.destroyed
  {
    var fi, fr := ReachableInv(k, u, s);
    HellosFit(k, u, s, fi, fr);
    ArriveIs(k, s, side, n);
    match side
    case I => SentChunkFits(k, FirstI(k, u), FirstR(k, u), s.i, s.r, fi, fr, Upto(n, s.r.sock.out));
    case R => SentChunkFits(k, FirstR(k, u), FirstI(k, u), s.r, s.i, fr, fi, Upto(n, s.i.sock.out));
  }

  // ---- Nothing is lost ----

  /** Nothing is left on the wire, undecoded or waiting for its turn. */
  predicate Idle(x: Conn, y: Conn) {
    x.sock.out == [] && y.rx.buf == [] && y.rx.pending == []
  }

  lemma NothingInFlight(k: Crypto, base: bytes, s: Sender, r: Receiver, h: seq<bytes>, q: seq<Item>)
    requires Link(k, base, s, r, h, q) && !r.destroyed && s.out == [] && r.buf == [] && r.pending == []
    ensures h == [] && q == []
    ensures s.writable ==> r.told == s.sent
  {
    var fs := InFlight(k, base, r.rxGen, h, q);
    assert fs[0..] == fs;
  }

  /** When all that was written has been handled, all that was sent has been emitted. */
  lemma NothingLost(k: Crypto, u: Setup, s: Sys)
    requires Laws(k) && Reachable(k, u, s)
    ensures Writable(s.i) && !s.r.sock.destroyed && Idle(s.i, s.r) ==> Told(s.r.rx.got) == s.i.tx.sent
    ensures Writable(s.r) && !s.i.sock.destroyed && Idle(s.r, s.i) ==> Told(s.i.rx.got) == s.r.tx.sent
  {
    var fi, fr := ReachableInv(k, u, s);
    if Writable(s.i) && !s.r.sock.destroyed && Idle(s.i, s.r) {
      NothingInFlight(k, FirstI(k, u), Sending(s.i), Receiving(s.r), fi.h, fi.q);
    }
    if Writable(s.r) && !s.i.sock.destroyed && Idle(s.r, s.i) {
      NothingInFlight(k, FirstR(k, u), Sending(s.r), Receiving(s.i), fr.h, fr.q);
    }
  }

  // ---- Exactly which bodies are refused ----

  /** The frame of a `send` with the next number. */
  function FrameOf(k: Crypto, x: Conn, body: bytes, nonce: Nonce): bytes
    requires x.session.Some? && x.tx.num + 1 < U64
  {
    SealUnder(k, x.session.value.txKey, nonce, PlainBytes(Data(x.tx.num + 1, body)))
  }

  lemma FrameLength(k: Crypto, x: Conn, body: bytes, nonce: Nonce)
    requires Laws(k) && x.session.Some? && x.tx.num + 1 < U64
    ensures |FrameOf(k, x, body, nonce)| == |body| + 49
  {
    PlainRoundTrip(Data(x.tx.num + 1, body));
    OpenSealed(k, x.session.value.txKey, nonce, PlainBytes(Data(x.tx.num + 1, body)));
  }

  /** A `send` that can write puts its frame on the wire first, and leaves the end able to write. */
  lemma SendWrites(k: Crypto, kx: bytes, ky: bytes, x: Conn, body: bytes, now: int, nonce: Nonce, nonce2: Nonce)
    returns (more: bytes)
    requires Laws(k) && Keyed(k, kx, ky, x) && x.session.Some? && Writable(x)
    requires x.tx.num + 1 < U64 && |body| < U32 - 49
    ensures var r, f := Send(k, x, body, now, nonce, nonce2), FrameOf(k, x, body, nonce);
            && r.Done? && Writable(r.conn) && |f| == |body| + 49
            && r.conn.sock.out == x.sock.out + (EncodeFrame(f).value + more)
  {
    var w := SendData(k, x, body, nonce);
    FrameLength(k, x, body, nonce);
    SendDataWrites(k, x, body, nonce);
    more := RekeyWrites(k, w.conn, now, nonce2);
    Assoc(x.sock.out, EncodeFrame(FrameOf(k, x, body, nonce)).value, more);
  }

  lemma SendDataWrites(k: Crypto, x: Conn, body: bytes, nonce: Nonce)
    requires x.session.Some? && Writable(x) && x.tx.num + 1 < U64 && EncodeFrame(FrameOf(k, x, body, nonce)).Some?
    ensures var w := SendData(k, x, body, nonce);
            w.Done? && Writable(w.conn) && w.conn.sock.out == x.sock.out + EncodeFrame(FrameOf(k, x, body, nonce)).value
  {}

  lemma RekeyWrites(k: Crypto, x: Conn, now: int, nonce: Nonce) returns (more: bytes)
    ensures var x' := MaybeAutoRekey(k, x, now, nonce);
            x'.sock.out == x.sock.out + more && Writable(x') == Writable(x)
  {
    more := MaybeAutoRekey(k, x, now, nonce).sock.out[|x.sock.out|..];
  }

  /** A receiver with nothing undecoded gives up on an oversized frame as soon as it arrives. */
  lemma OversizeKills(y: Conn, f: bytes, more: bytes)
    requires !y.sock.closed && !y.sock.destroyed && y.rx.buf == [] && SESSION_MAX_FRAME < |f| < U32
    ensures Receive(y, EncodeFrame(f).value + more).sock.destroyed
  {
    OversizeRefused(SESSION_MAX_FRAME, f, more);
    var chunk := EncodeFrame(f).value + more;
    assert [] + chunk == chunk;
  }

  lemma Cancel<T>(a: seq<T>, b: seq<T>, c: seq<T>)
    requires a + b == a + c
    ensures b == c
  {
    CutHead(a, b);
    CutHead(a, c);
  }

  lemma StillReading(k: Crypto, base: bytes, s: Sender, r: Receiver, h: seq<bytes>, q: seq<Item>)
    requires Link(k, base, s, r, h, q) && s.writable && !r.destroyed
    ensures !r.closed
  {}

  lemma TooLongKills(k: Crypto, kx: bytes, ky: bytes, x: Conn, y: Conn, body: bytes, now: int, nonce: Nonce, nonce2: Nonce)
    requires Laws(k) && Keyed(k, kx, ky, x) && x.session.Some? && Writable(x) && Idle(x, y)
    requires !y.sock.destroyed && !y.sock.closed && x.tx.num + 1 < U64 && MAX_BODY < |body| < U32 - 49
    ensures Receive(y, Send(k, x, body, now, nonce, nonce2).conn.sock.out).sock.destroyed
  {
    var f := FrameOf(k, x, body, nonce);
    var more := SendWrites(k, kx, ky, x, body, now, nonce, nonce2);
    OversizeKills(y, f, more);
    assert [] + (EncodeFrame(f).value + more) == EncodeFrame(f).value + more;
  }

  lemma OneBodyPasses(k: Crypto, kx: bytes, ky: bytes, x: Conn, y: Conn, fx: Flight, fy: Flight, body: bytes)
    requires Laws(k) && Pair(k, kx, ky, x, y, fx, fy) && Writable(x) && fx.h == []
    requires x.tx.sent == Told(y.rx.got) + [body] && !y.sock.destroyed && |body| <= MAX_BODY
    ensures !Receive(y, x.sock.out[..|x.sock.out|]).sock.destroyed
  {
    BodiesNow(k, kx, Sending(x), Receiving(y), fx.h, fx.q, body);
    ChunkFits(k, ky, kx, y, x, fy, fx, |x.sock.out|);
  }

  lemma ShortPasses(k: Crypto, kx: bytes, ky: bytes, x: Conn, y: Conn, fx: Flight, fy: Flight,
                    body: bytes, now: int, nonce: Nonce, nonce2: Nonce)
    requires Laws(k) && Pair(k, kx, ky, x, y, fx, fy) && Told(y.rx.got) == x.tx.sent && fx.h == []
    requires !y.sock.destroyed && |body| <= MAX_BODY
    requires Send(k, x, body, now, nonce, nonce2).Done? && Writable(Send(k, x, body, now, nonce, nonce2).conn)
    ensures var out := Send(k, x, body, now, nonce, nonce2).conn.sock.out;
            !Receive(y, out[..|out|]).sock.destroyed
  {
    var x' := Send(k, x, body, now, nonce, nonce2).conn;
    SendSends(k, x, body, now, nonce, nonce2);
    var fx' := SendKeeps(k, kx, ky, x, y, fx, fy, body, now, nonce, nonce2);
    OneBodyPasses(k, kx, ky, x', y, fx', fy, body);
  }

  /** From a direction at rest, the receiver of one `send` ends if and only if its body is too long. */
  lemma RefusedPair(k: Crypto, kx: bytes, ky: bytes, x: Conn, y: Conn, fx: Flight, fy: Flight,
                    body: bytes, now: int, nonce: Nonce, nonce2: Nonce)
    requires Laws(k) && Pair(k, kx, ky, x, y, fx, fy) && x.session.Some? && Writable(x)
    requires !y.sock.destroyed && Idle(x, y) && x.tx.num + 1 < U64 && |body| < U32 - 49
    ensures var out := Send(k, x, body, now, nonce, nonce2).conn.sock.out;
            Receive(y, out[..|out|]).sock.destroyed <==> |body| > MAX_BODY
  {
    var out := Send(k, x, body, now, nonce, nonce2).conn.sock.out;
    NothingInFlight(k, kx, Sending(x), Receiving(y), fx.h, fx.q);
    if |body| > MAX_BODY {
      StillReading(k, kx, Sending(x), Receiving(y), fx.h, fx.q);
      TooLongKills(k, kx, ky, x, y, body, now, nonce, nonce2);
      assert out[..|out|] == out;
    } else {
      var more := SendWrites(k, kx, ky, x, body, now, nonce, nonce2);
      ShortPasses(k, kx, ky, x, y, fx, fy, body, now, nonce, nonce2);
    }
  }

  lemma BodiesNow(k: Crypto, base: bytes, s: Sender, r: Receiver, h: seq<bytes>, q: seq<Item>, body: bytes)
    requires Link(k, base, s, r, h, q) && s.writable && !r.destroyed && s.sent == r.told + [body]
    ensures Bodies(q) == [body]
  {
    Cancel(r.told, Bodies(q), [body]);
  }

  /**
   * Exactly which bodies are refused, in both directions. After a `send` on an open session at rest, with
   * the whole wire delivered, the receiver has ended if and only if the body is longer than `MAX_BODY`:
   * the sender can tell beforehand, and `send` does not check.
   */
  lemma RefusedExactly(k: Crypto, u: Setup, s: Sys, side: Side, body: bytes, now: int, nonce: Nonce, nonce2: Nonce)
    requires Laws(k) && Reachable(k, u, s)
    requires var x, y := End(s, side), End(s, Other(side));
             && x.session.Some? && Writable(x) && !y.sock.destroyed && Idle(x, y)
             && x.tx.num + 1 < U64 && |body| < U32 - 49
    ensures var s1 := Step(k, s, Act(side, AppSend(body, now, nonce, nonce2)));
            var s2 := Step(k, s1, Arrive(Other(side), |End(s1, side).sock.out|));
            End(s2, Other(side)).sock.destroyed <==> |body| > MAX_BODY
  {
    var fi, fr := ReachableInv(k, u, s);
    var s1 := Step(k, s, Act(side, AppSend(body, now, nonce, nonce2)));
    ArriveIs(k, s1, Other(side), |End(s1, side).sock.out|);
    match side
    case I => RefusedPair(k, FirstI(k, u), FirstR(k, u), s.i, s.r, fi, fr, body, now, nonce, nonce2);
    case R => RefusedPair(k, FirstR(k, u), FirstI(k, u), s.r, s.i, fr, fi, body, now, nonce, nonce2);
  }
}
