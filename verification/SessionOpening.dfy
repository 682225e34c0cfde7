/** The handshake can always complete: an undisturbed exchange opens both sessions. */
module SessionOpening {
  import opened Bytes
  import opened Frame
  import opened Handshake
  import opened SecureConnection
  import opened SessionRun
  import opened StreamCodec

  /** A single frame that fits decodes to its payload. */
  lemma OneFrame(m: bytes)
    requires |m| <= SESSION_MAX_FRAME
    ensures EncodeFrame(m).Some? && |EncodeFrame(m).value| <= U32
    ensures var d := Decode(Frames(SESSION_MAX_FRAME), EncodeFrame(m).value);
            !d.failed && d.rest == [] && Payloads(d.units) == [m]
  {
    var f, w := Frames(SESSION_MAX_FRAME), EncodeFrame(m).value;
    EncodeFrameIsUnit(SESSION_MAX_FRAME, m);
    assert w[..|w|] == w && w[|w|..] == [];
    assert Decode(f, []) == Decoded([], [], false);
    assert Payloads([w] + []) == [Payload(w)] + Payloads([]);
  }

  /** An end that has handled everything it was sent. */
  predicate Waiting(c: Conn) {
    c.rx.buf == [] && c.rx.pending == [] && Writable(c) && !c.sock.destroyed
  }

  /** An end with the single frame `m` decoded and waiting for its turn. */
  function Given(c: Conn, m: bytes): Conn {
    c.(rx := c.rx.(pending := [m]))
  }

  function Sent(c: Conn): Conn {
    c.(sock := c.sock.(out := []))
  }

  lemma ReceivesOne(c: Conn, m: bytes)
    requires Waiting(c) && |m| <= SESSION_MAX_FRAME
    ensures EncodeFrame(m).Some? && Receive(c, EncodeFrame(m).value) == Given(c, m)
  {
    OneFrame(m);
    assert [] + EncodeFrame(m).value == EncodeFrame(m).value;
    assert [] + [m] == [m];
  }

  lemma ArrivesR(k: Crypto, s: Sys, m: bytes)
    requires Waiting(s.r) && |m| <= SESSION_MAX_FRAME && EncodeFrame(m) == Some(s.i.sock.out)
    ensures Step(k, s, Arrive(R, U32)) == Sys(Sent(s.i), Given(s.r, m))
  {
    OneFrame(m);
    ReceivesOne(s.r, m);
    var out := s.i.sock.out;
    assert out[..|out|] == out && out[|out|..] == [];
  }

  lemma ArrivesI(k: Crypto, s: Sys, m: bytes)
    requires Waiting(s.i) && |m| <= SESSION_MAX_FRAME && EncodeFrame(m) == Some(s.r.sock.out)
    ensures Step(k, s, Arrive(I, U32)) == Sys(Given(s.i, m), Sent(s.r))
  {
    OneFrame(m);
    ReceivesOne(s.i, m);
    var out := s.r.sock.out;
    assert out[..|out|] == out && out[|out|..] == [];
  }

  /** MSG1 reaches the responder, which answers. */
  lemma Round1(k: Crypto, u: Setup, now: int, nonce: Nonce) returns (s: Sys)
    requires Laws(k)
    ensures s == Step(k, Step(k, Start(k, u), Arrive(R, U32)), Act(R, Turn(true, now, nonce)))
    ensures s.i == Sent(Start(k, u).i) && Waiting(s.i) && s.i.session.None? && s.i.self.initiator && s.i.self.secrets == u.i
    ensures EncodeFrame(Message2(k, u.i, u.r)) == Some(s.r.sock.out) && Waiting(s.r) && s.r.session.None?
    ensures s.r.tx == Start(k, u).r.tx && s.r.hs == Hs(Some(HalfOf(k, u.i, u.r)), 1) && !s.r.self.initiator && s.r.self.secrets == u.r
  {
    var s0 := Start(k, u);
    HandshakeAgreement(k, u.i, u.r);
    assert [] + EncodeFrame(Message1(k, u.i)).value == EncodeFrame(Message1(k, u.i)).value;
    ArrivesR(k, s0, Message1(k, u.i));
    var r := Given(s0.r, Message1(k, u.i));
    Turn1Is(k, u, r, now, nonce);
    s := Sys(Sent(s0.i), HandleNext(k, r, true, now, nonce));
    assert [] + EncodeFrame(Message2(k, u.i, u.r)).value == EncodeFrame(Message2(k, u.i, u.r)).value;
  }

  /** MSG2 reaches the initiator, which opens its session and answers. */
  lemma Round2(k: Crypto, u: Setup, s: Sys, now: int, nonce: Nonce) returns (s': Sys)
    requires Laws(k) && Waiting(s.i) && s.i.session.None? && s.i.self.initiator && s.i.self.secrets == u.i
    requires s.i.sock.out == [] && EncodeFrame(Message2(k, u.i, u.r)) == Some(s.r.sock.out)
    ensures s' == Step(k, Step(k, s, Arrive(I, U32)), Act(I, Turn(true, now, nonce)))
    ensures s'.r == Sent(s.r) && Waiting(s'.i) && s'.i.session == Some(InitiatorSession(k, u.i, u.r))
    ensures s'.i.tx == s.i.tx && s'.i.self == s.i.self
    ensures EncodeFrame(Message3(k, u.i, u.r)) == Some(s'.i.sock.out)
  {
    HandshakeAgreement(k, u.i, u.r);
    ArrivesI(k, s, Message2(k, u.i, u.r));
    var i := Given(s.i, Message2(k, u.i, u.r));
    Turn2Is(k, u, i, now, nonce);
    s' := Sys(HandleNext(k, i, true, now, nonce), Sent(s.r));
    assert [] + EncodeFrame(Message3(k, u.i, u.r)).value == EncodeFrame(Message3(k, u.i, u.r)).value;
  }

  /** MSG3 reaches the responder, which opens its session. */
  lemma Round3(k: Crypto, u: Setup, s: Sys, now: int, nonce: Nonce) returns (s': Sys)
    requires Laws(k) && Waiting(s.i) && Waiting(s.r) && s.r.session.None? && !s.r.self.initiator && s.r.self.secrets == u.r
    requires s.r.hs == Hs(Some(HalfOf(k, u.i, u.r)), 1) && EncodeFrame(Message3(k, u.i, u.r)) == Some(s.i.sock.out)
    ensures s' == Step(k, Step(k, s, Arrive(R, U32)), Act(R, Turn(true, now, nonce)))
    ensures s'.i == Sent(s.i) && Waiting(s'.i) && Waiting(s'.r) && s'.r.sock == s.r.sock && s'.r.tx == s.r.tx
    ensures s'.r.session == Some(HalfOf(k, u.i, u.r).session)
  {
    HandshakeAgreement(k, u.i, u.r);
    ArrivesR(k, s, Message3(k, u.i, u.r));
    var r := Given(s.r, Message3(k, u.i, u.r));
    Turn3Is(k, u, r, now, nonce);
    s' := Sys(Sent(s.i), HandleNext(k, r, true, now, nonce));
  }

  lemma TwoSteps(k: Crypto, u: Setup, s: Sys, e: Event, f: Event)
    requires Reachable(k, u, s) && Joined(e) && Joined(f)
    ensures Reachable(k, u, Step(k, Step(k, s, e), f))
  {
    ReachableStep(k, u, s, e);
    ReachableStep(k, u, Step(k, s, e), f);
  }

  /** Both sessions are open for the first time, with nothing in flight. */
  ghost predicate JustOpened(k: Crypto, u: Setup, s: Sys)
    requires Laws(k)
  {
    && Reachable(k, u, s) && Waiting(s.i) && Waiting(s.r) && s.i.sock.out == [] && s.r.sock.out == []
    && s.i.session == Some(InitiatorSession(k, u.i, u.r))
    && s.r.session == Some(HalfOf(k, u.i, u.r).session)
    && s.i.tx == Start(k, u).i.tx && s.i.self == Start(k, u).i.self && s.r.tx == Start(k, u).r.tx
  }

  /** Some run opens both sessions, with nothing left in flight. */
  lemma HandshakeCompletes(k: Crypto, u: Setup) returns (s: Sys)
    requires Laws(k)
    ensures JustOpened(k, u, s)
  {
    var nonce: Nonce := seq(NONCE_LEN, i => 0);
    StartReachable(k, u);
    var s1 := Round1(k, u, 0, nonce);
    TwoSteps(k, u, Start(k, u), Arrive(R, U32), Act(R, Turn(true, 0, nonce)));
    var s2 := Round2(k, u, s1, 0, nonce);
    TwoSteps(k, u, s1, Arrive(I, U32), Act(I, Turn(true, 0, nonce)));
    s := Round3(k, u, s2, 0, nonce);
    TwoSteps(k, u, s2, Arrive(R, U32), Act(R, Turn(true, 0, nonce)));
  }

  lemma RekeyFlags(k: Crypto, c: Conn, nonce: Nonce)
    requires c.session.Some? && Writable(c)
    ensures var c' := StartRekey(k, c, nonce); c'.tx.rekeying && Writable(c')
  {}

  /** Both ends can be waiting for the answer to a renewal of their own at the same time. */
  lemma BothRenew(k: Crypto, u: Setup) returns (s: Sys)
    requires Laws(k)
    ensures Reachable(k, u, s) && s.i.tx.rekeying && s.r.tx.rekeying && Writable(s.i) && Writable(s.r)
  {
    var nonce: Nonce := seq(NONCE_LEN, i => 0);
    var s0 := HandshakeCompletes(k, u);
    RekeyFlags(k, s0.i, nonce);
    RekeyFlags(k, s0.r, nonce);
    TwoSteps(k, u, s0, Act(I, AppRekey(nonce)), Act(R, AppRekey(nonce)));
    s := Step(k, Step(k, s0, Act(I, AppRekey(nonce))), Act(R, AppRekey(nonce)));
  }
}
