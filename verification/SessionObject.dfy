/** A session end as the objects of the source, whose methods update their fields in place. */
module SessionObject {
  import opened Bytes
  import opened FixedWindow
  import opened Frame
  import opened Handshake
  import opened StreamCodec
  import opened C = SecureConnection

  lemma SealedOpens(k: Crypto, key: bytes, nonce: Nonce, plain: bytes)
    ensures var sealed := SealUnder(k, key, nonce, plain);
            Laws(k) ==> OpenUnder(k, key, sealed) == Some(plain) && |sealed| == |plain| + NONCE_LEN + TAG_LEN
  {
    if Laws(k) {
      OpenSealed(k, key, nonce, plain);
    }
  }

  lemma OpensWhatWasSealed(k: Crypto, key: bytes, sealed: bytes)
    ensures Laws(k) ==>
              forall nonce: Nonce, p: bytes :: sealed == SealUnder(k, key, nonce, p) ==> OpenUnder(k, key, sealed) == Some(p)
  {
    forall nonce: Nonce, p: bytes | Laws(k) && sealed == SealUnder(k, key, nonce, p)
      ensures OpenUnder(k, key, sealed) == Some(p)
    {
      SealedOpens(k, key, nonce, p);
    }
  }

  /** `SecureSession` (src/crypto/handshake.js) */
  class SecureSession {
    var txKey: bytes
    var rxKey: bytes
    var txGen: nat
    var rxGen: nat
    const peerId: bytes

    constructor (s: Session)
      ensures State() == s
    {
      txKey, rxKey, txGen, rxGen, peerId := s.txKey, s.rxKey, s.txGen, s.rxGen, s.peerId;
    }

    function State(): Session
      reads this
    {
      Session(txKey, rxKey, txGen, rxGen, peerId)
    }

    /** `seal`: whoever receives with this session's sending key gets the plaintext back. */
    method Seal(k: Crypto, nonce: Nonce, plain: bytes) returns (sealed: bytes)
      ensures Laws(k) ==> OpenUnder(k, txKey, sealed) == Some(plain) && |sealed| == |plain| + NONCE_LEN + TAG_LEN
      ensures sealed == SealUnder(k, txKey, nonce, plain)
    {
      SealedOpens(k, txKey, nonce, plain);
      var ct := k.encrypt(txKey, nonce, plain);
      sealed := nonce + ct;
    }

    /** `open`: what any peer sealed under this session's receiving key comes back; `None` is a throw. */
    method Open(k: Crypto, sealed: bytes) returns (plain: Option<bytes>)
      ensures Laws(k) ==> forall nonce: Nonce, p: bytes :: sealed == SealUnder(k, rxKey, nonce, p) ==> plain == Some(p)
      ensures |sealed| < NONCE_LEN ==> plain.None?
      ensures plain == OpenUnder(k, rxKey, sealed)
    {
      OpensWhatWasSealed(k, rxKey, sealed);
      if |sealed| < NONCE_LEN {
        return None;
      }
      plain := k.decrypt(rxKey, sealed[..NONCE_LEN], sealed[NONCE_LEN..]);
    }

    /** `rekeyTx` */
    method AdvanceTx(k: Crypto)
      modifies this`txKey, this`txGen
      ensures State() == RekeyTx(k, old(State()))
    {
      txKey := Rekeyed(k, txKey);
      txGen := txGen + 1;
    }

    /** `rekeyRx` */
    method AdvanceRx(k: Crypto)
      modifies this`rxKey, this`rxGen
      ensures State() == RekeyRx(k, old(State()))
    {
      rxKey := Rekeyed(k, rxKey);
      rxGen := rxGen + 1;
    }
  }

  /** What the environment supplies for one frame: the frame limiter's answer, the time and a nonce. */
  datatype Env = Env(allowed: bool, now: int, nonce: Nonce)

  /** The loop of `_onData` over the frames of one chunk. */
  function Turns(k: Crypto, c: Conn, env: seq<Env>): Conn
    decreases |env|
  {
    if c.rx.pending == [] || env == [] then c
    else Turns(k, HandleNext(k, c, env[0].allowed, env[0].now, env[0].nonce), env[1..])
  }

  function TurnOps(env: seq<Env>): seq<Op> {
    if env == [] then [] else [Turn(env[0].allowed, env[0].now, env[0].nonce)] + TurnOps(env[1..])
  }

  /** A `data` event is one run of the operations that the theorems about sessions range over. */
  lemma {:induction false} DataIsRun(k: Crypto, c: Conn, chunk: bytes, env: seq<Env>)
    ensures Turns(k, Receive(c, chunk), env) == C.Run(k, c, [Chunk(chunk)] + TurnOps(env))
  {
    assert ([Chunk(chunk)] + TurnOps(env))[1..] == TurnOps(env);
    TurnsAreRun(k, Receive(c, chunk), env);
  }

  lemma {:induction false} TurnsAreRun(k: Crypto, c: Conn, env: seq<Env>)
    ensures Turns(k, c, env) == C.Run(k, c, TurnOps(env))
    decreases |env|
  {
    if env != [] {
      var c' := Apply(k, c, TurnOps(env)[0]);
      assert TurnOps(env)[1..] == TurnOps(env[1..]);
      TurnsAreRun(k, c', env[1..]);
      if c.rx.pending == [] {
        assert c' == c;
        assert Turns(k, c', env[1..]) == c;
      }
    }
  }

  /** `SecureConnection`; `pending` holds the frames of the chunk `_onData` is working through. */
  class SecureConnection {
    const k: Crypto
    const self: Self
    const decoder: FrameDecoder
    var half: Option<Half>
    var step: nat
    var session: SecureSession?
    var closed: bool
    var ended: bool
    var destroyed: bool
    var out: bytes
    var txSeq: nat
    var rekeying: bool
    var rk: Rk
    var sent: seq<bytes>
    var rxSeq: Option<nat>
    var window: Counter
    var pending: seq<bytes>
    var got: seq<Message>

    function State(): Conn
      reads this, decoder, session
    {
      Conn(self, Hs(half, step), if session == null then None else Some(session.State()),
           Sock(closed, ended, destroyed, out), Tx(txSeq, rekeying, rk, sent),
           Rx(rxSeq, window, decoder.buf, pending, got))
    }

    ghost predicate Valid()
      reads this
    {
      decoder.max == SESSION_MAX_FRAME
    }

    constructor (k: Crypto, initiator: bool, secrets: Secrets, policy: Policy, now: int)
      ensures Valid() && fresh(decoder) && session == null
      ensures this.k == k && State() == Opened(k, initiator, secrets, policy, now)
    {
      this.k, self := k, Self(initiator, secrets, Effective(policy));
      var d := new FrameDecoder(SESSION_MAX_FRAME);
      decoder := d;
      half, step, session := None, 0, null;
      closed, ended, destroyed, out := false, false, false, [];
      txSeq, rekeying, rk, sent := 0, false, Rk(0, 0, now), [];
      rxSeq, window, pending, got := None, Counter(0, now), [], [];
      new;
      if initiator {
        var threw := Write(Message1(k, secrets));
      }
    }

    /** `_write` */
    method Write(frame: bytes) returns (threw: bool)
      modifies this`out
      ensures var w := C.Write(old(State()), frame); threw == w.Threw? && State() == w.conn
    {
      threw := false;
      if !closed {
        var encoded := EncodeFrame(frame);
        if encoded.None? {
          return true;
        }
        if !ended {
          out := out + encoded.value;
        }
      }
    }

    /** Seals and writes one message; a message that renews keys advances the sending key. */
    method Emit(nonce: Nonce, p: Plain) returns (threw: bool)
      requires session != null
      modifies this`out, session
      ensures var w := C.Emit(k, old(State()), nonce, p); threw == w.Threw? && State() == w.conn
    {
      var sealed := session.Seal(k, nonce, PlainBytes(p));
      threw := Write(sealed);
      if !threw && (p.Rekey? || p.RekeyAck?) {
        session.AdvanceTx(k);
      }
    }

    /** `rekey` */
    method Rekey(nonce: Nonce)
      modifies this`out, this`rekeying, session
      ensures State() == StartRekey(k, old(State()), nonce)
    {
      if session == null || rekeying {
        return;
      }
      rekeying := true;
      var threw := Emit(nonce, Plain.Rekey);
    }

    /** `_maybeAutoRekey` */
    method MaybeAutoRekey(now: int, nonce: Nonce)
      modifies this`out, this`rekeying, session
      ensures State() == C.MaybeAutoRekey(k, old(State()), now, nonce)
    {
      if !self.initiator || session == null || rekeying {
        return;
      }
      var elapsed := now - rk.since;
      if rk.msgs >= self.policy.everyMsgs || rk.bytes >= self.policy.everyBytes || elapsed >= self.policy.everyMs {
        Rekey(nonce);
      }
    }

    method SendNumbered(body: bytes, nonce: Nonce) returns (threw: bool)
      requires session != null && txSeq < U64
      modifies this`out, this`rk, this`sent, session
      ensures var w := C.SendNumbered(k, old(State()), body, nonce); threw == w.Threw? && State() == w.conn
    {
      threw := Emit(nonce, Data(txSeq, body));
      if !threw {
        rk := Rk(rk.msgs + 1, rk.bytes + |body|, rk.since);
        sent := sent + [body];
      }
    }

    /** `send` up to its accounting. */
    method SendData(body: bytes, nonce: Nonce) returns (threw: bool)
      modifies this`out, this`txSeq, this`rk, this`sent, session
      ensures var w := C.SendData(k, old(State()), body, nonce); threw == w.Threw? && State() == w.conn
    {
      if session == null {
        return true;
      }
      txSeq := txSeq + 1;
      assert State() == Numbered(old(State()));
      if txSeq >= U64 {
        return true;
      }
      threw := SendNumbered(body, nonce);
    }

    /** `send` */
    method Send(body: bytes, now: int, nonce: Nonce, nonce2: Nonce) returns (threw: bool)
      modifies this`out, this`rekeying, this`txSeq, this`rk, this`sent, session
      ensures var w := C.Send(k, old(State()), body, now, nonce, nonce2); threw == w.Threw? && State() == w.conn
    {
      threw := SendData(body, nonce);
      if !threw {
        MaybeAutoRekey(now, nonce2);
      }
    }

    /** `close` */
    method Close(nonce: Nonce)
      modifies this`out, this`ended, session
      ensures State() == Shut(k, old(State()), nonce)
    {
      if closed {
        return;
      }
      if session != null {
        var threw := Emit(nonce, Plain.Close);
      }
      ended := true;
    }

    /** `_msgAllow` */
    method MsgAllow(now: int) returns (ok: bool)
      modifies this`window
      ensures window == Bump(Some(old(window)), now, 1000) && ok == (window.count <= self.policy.maxPerSecond)
    {
      if now - window.windowStart > 1000 {
        window := Counter(0, now);
      }
      window := Counter(window.count + 1, window.windowStart);
      ok := window.count <= self.policy.maxPerSecond;
    }

    /** `_fail` */
    method Fail()
      modifies this`closed, this`destroyed, this`pending
      ensures State() == C.Fail(old(State()))
    {
      if closed {
        return;
      }
      closed, destroyed, pending := true, true, [];
    }

    /** The DATA branch of `_handleFrame`. */
    method OnMessage(num: u64, body: bytes, now: int)
      modifies this`window, this`closed, this`destroyed, this`pending, this`rxSeq, this`got
      ensures State() == HandleData(old(State()), num, body, now)
    {
      var ok := MsgAllow(now);
      if !ok {
        Fail();
        return;
      }
      if rxSeq.Some? && num <= rxSeq.value {
        Fail();
        return;
      }
      rxSeq := Some(num);
      got := got + [Message(num, body, now)];
    }

    /** `_handleFrame` on an established session, once the frame is open. */
    method OnPlain(p: Plain, now: int, nonce: Nonce) returns (threw: bool)
      requires session != null
      modifies this, session
      ensures var w := HandlePlain(k, old(State()), p, now, nonce); threw == w.Threw? && State() == w.conn
      ensures session == old(session)
    {
      threw := false;
      match p
      case Data(num, body) => OnMessage(num, body, now);
      case Rekey =>
        session.AdvanceRx(k);
        threw := Emit(nonce, RekeyAck);
      case RekeyAck =>
        session.AdvanceRx(k);
        rekeying, rk := false, Rk(0, 0, now);
      case Close => closed, ended := true, true;
    }

    /** `_handleFrame` on an established session. */
    method OnSealed(frame: bytes, now: int, nonce: Nonce) returns (threw: bool)
      requires session != null
      modifies this, session
      ensures var w := HandleSealed(k, old(State()), frame, now, nonce); threw == w.Threw? && State() == w.conn
      ensures session == old(session)
    {
      var pt := session.Open(k, frame);
      if pt.None? {
        return true;
      }
      var p := ReadPlain(pt.value);
      if p.None? {
        return true;
      }
      threw := OnPlain(p.value, now, nonce);
    }

    /** `_handleFrame` during the handshake. */
    method OnHandshake(frame: bytes) returns (threw: bool)
      requires session == null
      modifies this
      ensures var w := HandleHandshake(k, old(State()), frame); threw == w.Threw? && State() == w.conn
      ensures session == null || fresh(session)
    {
      if self.initiator {
        var r := ConsumeMessage2(k, self.secrets, frame);
        if r.None? {
          return true;
        }
        session := new SecureSession(r.value.1);
        threw := Write(r.value.0);
      } else if step == 0 {
        var r := ConsumeMessage1(k, self.secrets, frame);
        if r.None? {
          return true;
        }
        half := Some(r.value.1);
        threw := Write(r.value.0);
        if !threw {
          step := 1;
        }
      } else {
        if half.None? {
          return true;
        }
        var r := ConsumeMessage3(k, self.secrets, half.value, frame);
        if r.None? {
          return true;
        }
        session := new SecureSession(r.value);
        threw := false;
      }
    }

    /** `_handleFrame` */
    method OnFrame(frame: bytes, now: int, nonce: Nonce) returns (threw: bool)
      modifies this, session
      ensures var w := HandleFrame(k, old(State()), frame, now, nonce); threw == w.Threw? && State() == w.conn
      ensures session == old(session) || fresh(session)
    {
      if session != null {
        threw := OnSealed(frame, now, nonce);
      } else {
        threw := OnHandshake(frame);
      }
    }

    /** One turn of the loop of `_onData`. */
    method OnTurn(allowed: bool, now: int, nonce: Nonce)
      requires pending != []
      modifies this, session
      ensures State() == HandleNext(k, old(State()), allowed, now, nonce)
      ensures session == old(session) || fresh(session)
    {
      var frame := pending[0];
      pending := pending[1..];
      if !allowed {
        Fail();
        pending := [];
        return;
      }
      var threw := OnFrame(frame, now, nonce);
      if threw {
        Fail();
        pending := [];
      } else if closed {
        pending := [];
      }
    }

    /** `_onData` as far as the decoder. */
    method OnBytes(chunk: bytes)
      requires Valid() && pending == [] && !destroyed
      modifies this`closed, this`destroyed, this`pending, decoder
      ensures State() == Receive(old(State()), chunk)
      ensures |pending| <= |Decode(Frames(SESSION_MAX_FRAME), old(decoder.buf) + chunk).units|
    {
      var frames := decoder.Push(chunk);
      if frames.None? {
        Fail();
      } else {
        pending := frames.value;
      }
    }

    /** `_onData` on a socket that still reads. */
    method OnData(chunk: bytes, env: seq<Env>)
      requires Valid() && pending == [] && !destroyed
      requires |env| >= |Decode(Frames(SESSION_MAX_FRAME), decoder.buf + chunk).units|
      modifies this, decoder, session
      ensures Valid() && pending == []
      ensures State() == Turns(k, Receive(old(State()), chunk), env)
    {
      OnBytes(chunk);
      ghost var c1 := State();
      var n := 0;
      assert env[0..] == env;
      while pending != []
        invariant n + |pending| <= |env|
        invariant Turns(k, State(), env[n..]) == Turns(k, c1, env)
        invariant session == old(session) || fresh(session)
        decreases |env| - n
      {
        ghost var was := State();
        OnTurn(env[n].allowed, env[n].now, env[n].nonce);
        TurnShrinks(k, was, env[n].allowed, env[n].now, env[n].nonce);
        assert env[n..][1..] == env[n + 1..];
        n := n + 1;
      }
    }
  }

  /** A turn takes at least one frame. */
  lemma TurnShrinks(k: Crypto, c: Conn, allowed: bool, now: int, nonce: Nonce)
    requires c.rx.pending != []
    ensures |HandleNext(k, c, allowed, now, nonce).rx.pending| < |c.rx.pending|
  {}
}
