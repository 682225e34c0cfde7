/**
 * What one end guarantees whatever its peer sends: messages are never replayed, their rate is bounded,
 * and an initiator renews its keys in time.
 */
module SessionLimits {
  import opened Arithmetic
  import opened Bytes
  import opened Handshake
  import opened SecureConnection
  import FixedWindow

  // ---- Replay ----

  /** Emitted messages have strictly rising numbers, and `last` is the number of the latest. */
  ghost predicate Fresh(rx: Rx) {
    && (forall i, j :: 0 <= i < j < |rx.got| ==> rx.got[i].num < rx.got[j].num)
    && (rx.got != [] ==> rx.last == Some(rx.got[|rx.got| - 1].num as nat))
  }

  lemma DataFresh(c: Conn, num: u64, body: bytes, now: int)
    requires Fresh(c.rx)
    ensures Fresh(HandleData(c, num, body, now).rx)
  {}

  /** The DATA message an operation passes to the rate limiter, if any. */
  function DataAt(k: Crypto, c: Conn, op: Op): Option<Plain> {
    if !op.Turn? || !op.allowed || c.rx.pending == [] || c.session.None? then None
    else
      match OpenUnder(k, c.session.value.rxKey, c.rx.pending[0])
      case None => None
      case Some(pt) =>
        match ReadPlain(pt)
        case Some(Data(num, body)) => Some(Data(num, body))
        case _ => None
  }

  /** What the application has been told, and the counter of the rate limit. */
  ghost predicate SameTold(rx: Rx, rx': Rx) {
    rx'.got == rx.got && rx'.last == rx.last && rx'.window == rx.window
  }

  /** A turn tells the application nothing, or handles one DATA message. */
  lemma TurnTells(k: Crypto, c: Conn, op: Op)
    requires op.Turn?
    ensures var c', d := Apply(k, c, op), DataAt(k, c, op);
            && c'.self == c.self
            && (d.None? ==> SameTold(c.rx, c'.rx))
            && (d.Some? ==> d.value.Data? && c.rx.pending != []
                            && SameTold(HandleData(Shifted(c), d.value.num, d.value.body, op.now).rx, c'.rx))
  {}

  /** No other operation touches the messages emitted. */
  lemma OthersTell(k: Crypto, c: Conn, op: Op)
    requires !op.Turn?
    ensures Apply(k, c, op).rx.got == c.rx.got && Apply(k, c, op).rx.last == c.rx.last
    ensures Apply(k, c, op).rx.window == c.rx.window && Apply(k, c, op).self == c.self
  {
    if op.AppSend? {
      SendLeaves(k, c, op.body, op.now, op.nonce, op.nonce2);
    }
  }

  /** What `send` leaves alone. */
  lemma SendLeaves(k: Crypto, c: Conn, body: bytes, now: int, nonce: Nonce, nonce2: Nonce)
    ensures var c' := Send(k, c, body, now, nonce, nonce2).conn;
            c'.rx == c.rx && c'.self == c.self && c'.sock.closed == c.sock.closed && c'.sock.destroyed == c.sock.destroyed
  {}

  /**
   * Replay defence. Whatever bytes arrive, the numbers of the messages emitted rise strictly, so no
   * message is emitted twice.
   */
  lemma {:induction false} NeverReplayed(k: Crypto, c: Conn, ops: seq<Op>)
    requires Fresh(c.rx)
    ensures Fresh(Run(k, c, ops).rx)
    decreases |ops|
  {
    if ops != [] {
      if ops[0].Turn? {
        var d := DataAt(k, c, ops[0]);
        TurnTells(k, c, ops[0]);
        if d.Some? {
          DataFresh(Shifted(c), d.value.num, d.value.body, ops[0].now);
        }
      } else {
        OthersTell(k, c, ops[0]);
      }
      NeverReplayed(k, Apply(k, c, ops[0]), ops[1..]);
    }
  }

  // ---- Rate ----

  /** The times at which a run counts a message. */
  function Calls(k: Crypto, c: Conn, ops: seq<Op>): seq<int>
    decreases |ops|
  {
    if ops == [] then []
    else (if DataAt(k, c, ops[0]).Some? then [ops[0].now] else []) + Calls(k, Apply(k, c, ops[0]), ops[1..])
  }

  /** What one operation does to the counter and to the messages emitted. */
  lemma CallIs(k: Crypto, c: Conn, op: Op)
    ensures var c' := Apply(k, c, op);
            && c'.self == c.self
            && (DataAt(k, c, op).None? ==> c'.rx.window == c.rx.window && c'.rx.got == c.rx.got)
            && (DataAt(k, c, op).Some? ==>
                  && c'.rx.window == FixedWindow.Bump(Some(c.rx.window), op.now, 1000)
                  && |c'.rx.got| <= |c.rx.got| + if c'.rx.window.count <= c.self.policy.maxPerSecond then 1 else 0)
  {
    if !op.Turn? {
      OthersTell(k, c, op);
    } else {
      TurnTells(k, c, op);
      if DataAt(k, c, op).Some? {
        DataIs(Shifted(c), DataAt(k, c, op).value.num, DataAt(k, c, op).value.body, op.now);
      }
    }
  }

  lemma DataIs(c: Conn, num: u64, body: bytes, now: int)
    ensures var c' := HandleData(c, num, body, now);
            && c'.self == c.self && c'.rx.window == FixedWindow.Bump(Some(c.rx.window), now, 1000)
            && |c'.rx.got| <= |c.rx.got| + if c'.rx.window.count <= c.self.policy.maxPerSecond then 1 else 0
  {}

  /** A run emits at most as many messages as the fixed-window counter lets through. */
  lemma {:induction false} EmitsAtMost(k: Crypto, c: Conn, ops: seq<Op>)
    ensures |Run(k, c, ops).rx.got| <= |c.rx.got|
            + FixedWindow.Count(FixedWindow.Run(Some(c.rx.window), Calls(k, c, ops), c.self.policy.maxPerSecond, 1000))
    decreases |ops|
  {
    if ops != [] {
      var c' := Apply(k, c, ops[0]);
      CallIs(k, c, ops[0]);
      EmitsAtMost(k, c', ops[1..]);
      var calls := Calls(k, c', ops[1..]);
      if DataAt(k, c, ops[0]).Some? {
        assert ([ops[0].now] + calls)[1..] == calls;
        var r := FixedWindow.Run(Some(c'.rx.window), calls, c.self.policy.maxPerSecond, 1000);
        assert ([c'.rx.window.count <= c.self.policy.maxPerSecond] + r)[1..] == r;
      } else {
        assert [] + calls == calls;
      }
    }
  }

  /**
   * Burst bound. From any state, while all the messages counted fall within one second, at most twice the
   * limit are emitted.
   */
  lemma SessionBurstBound(k: Crypto, c: Conn, ops: seq<Op>)
    requires FixedWindow.Sorted(Calls(k, c, ops))
    requires var t := Calls(k, c, ops); t != [] ==> t[|t| - 1] - t[0] <= 1000
    ensures |Run(k, c, ops).rx.got| <= |c.rx.got| + 2 * c.self.policy.maxPerSecond
  {
    EmitsAtMost(k, c, ops);
    FixedWindow.TwoWindows(Some(c.rx.window), Calls(k, c, ops), c.self.policy.maxPerSecond, 1000);
  }

  /** Over `T` ms a new end emits at most `limit * (T / 1001 + 1)` messages. */
  lemma SessionLongRun(k: Crypto, initiator: bool, secrets: Secrets, policy: Policy, start: int, end: int, ops: seq<Op>)
    requires start <= end
    requires var t := Calls(k, Opened(k, initiator, secrets, policy, start), ops);
             FixedWindow.Sorted(t) && forall i :: 0 <= i < |t| ==> start <= t[i] <= end
    ensures |Run(k, Opened(k, initiator, secrets, policy, start), ops).rx.got|
         <= FixedWindow.Quota(Effective(policy).maxPerSecond, 1000, end - start)
  {
    var c := Opened(k, initiator, secrets, policy, start);
    EmitsAtMost(k, c, ops);
    FixedWindow.LongRunFrom(c.rx.window, Calls(k, c, ops), c.self.policy.maxPerSecond, 1000, end);
  }

  // ---- Renewal of keys ----

  /** An initiator that awaits no renewal is below both thresholds. */
  ghost predicate InTime(c: Conn) {
    && c.self.policy.everyMsgs > 0 && c.self.policy.everyBytes > 0
    && (c.session.None? ==> c.tx.rk.msgs == 0 && c.tx.rk.bytes == 0)
    && (c.self.initiator && c.session.Some? && !c.tx.rekeying ==>
          c.tx.rk.msgs < c.self.policy.everyMsgs && c.tx.rk.bytes < c.self.policy.everyBytes)
  }

  /** What emitting leaves alone. */
  lemma EmitFrame(k: Crypto, c: Conn, nonce: Nonce, p: Plain)
    requires c.session.Some?
    ensures var c' := Emit(k, c, nonce, p).conn;
            c'.self == c.self && c'.tx == c.tx && c'.rx == c.rx && c'.session.Some?
  {}

  lemma StartRekeyFrame(k: Crypto, c: Conn, nonce: Nonce)
    ensures var c' := StartRekey(k, c, nonce);
            && c'.self == c.self && c'.session.Some? == c.session.Some?
            && c'.tx == c.tx.(rekeying := c.tx.rekeying || c.session.Some?)
  {}

  lemma AutoInTime(k: Crypto, c: Conn, now: int, nonce: Nonce)
    requires c.self.policy.everyMsgs > 0 && c.self.policy.everyBytes > 0 && c.session.Some?
    ensures InTime(MaybeAutoRekey(k, c, now, nonce))
  {
    StartRekeyFrame(k, c, nonce);
  }

  lemma SendInTime(k: Crypto, c: Conn, body: bytes, now: int, nonce: Nonce, nonce2: Nonce)
    requires InTime(c)
    ensures InTime(Send(k, c, body, now, nonce, nonce2).conn)
  {
    if c.session.Some? {
      var w := SendData(k, c, body, nonce);
      SendDataFrame(k, c, body, nonce);
      if w.Done? {
        AutoInTime(k, w.conn, now, nonce2);
      }
    }
  }

  lemma SendDataFrame(k: Crypto, c: Conn, body: bytes, nonce: Nonce)
    requires c.session.Some?
    ensures var w := SendData(k, c, body, nonce);
            && w.conn.self == c.self && w.conn.session.Some? && w.conn.tx.rekeying == c.tx.rekeying
            && (w.Threw? ==> w.conn.tx.rk == c.tx.rk)
  {}

  lemma TurnInTime(k: Crypto, c: Conn, allowed: bool, now: int, nonce: Nonce)
    requires InTime(c)
    ensures InTime(HandleNext(k, c, allowed, now, nonce)) && HandleNext(k, c, allowed, now, nonce).self == c.self
  {
    TurnTx(k, c, allowed, now, nonce);
  }

  /** A turn leaves the accounts alone, or closes a renewal and starts them afresh. */
  lemma TurnTx(k: Crypto, c: Conn, allowed: bool, now: int, nonce: Nonce)
    ensures var c' := HandleNext(k, c, allowed, now, nonce);
            && c'.self == c.self && (c.session.Some? ==> c'.session.Some?)
            && (c'.tx == c.tx || c'.tx == c.tx.(rekeying := false, rk := Rk(0, 0, now)))
  {}

  lemma OpInTime(k: Crypto, c: Conn, op: Op)
    requires InTime(c)
    ensures InTime(Apply(k, c, op)) && Apply(k, c, op).self == c.self
  {
    match op
    case AppSend(body, now, nonce, nonce2) =>
      SendInTime(k, c, body, now, nonce, nonce2);
      OthersTell(k, c, op);
    case AppRekey(nonce) => StartRekeyFrame(k, c, nonce);
    case Tick(now, nonce) => StartRekeyFrame(k, c, nonce);
    case Turn(allowed, now, nonce) => TurnInTime(k, c, allowed, now, nonce);
    case AppClose(nonce) => if c.session.Some? { EmitFrame(k, c, nonce, Close); }
    case _ =>
  }

  /**
   * Auto-rekey. After every operation of an initiator, whatever arrives, either a renewal is awaited or
   * fewer than `everyMsgs` messages and `everyBytes` bytes were sent since the last one.
   */
  lemma {:induction false} AlwaysInTime(k: Crypto, c: Conn, ops: seq<Op>)
    requires InTime(c)
    ensures InTime(Run(k, c, ops))
    decreases |ops|
  {
    if ops != [] {
      OpInTime(k, c, ops[0]);
      AlwaysInTime(k, Apply(k, c, ops[0]), ops[1..]);
    }
  }

  lemma OpenedInTime(k: Crypto, initiator: bool, secrets: Secrets, policy: Policy, now: int)
    ensures InTime(Opened(k, initiator, secrets, policy, now)) && Fresh(Opened(k, initiator, secrets, policy, now).rx)
  {}

  /** A message sent while a renewal is awaited changes neither the keys nor the flag. */
  lemma WaitingSend(k: Crypto, c: Conn, body: bytes, now: int, nonce: Nonce)
    requires Laws(k) && c.session.Some? && c.tx.rekeying && c.tx.num + 1 < U64 && |body| < U32 - 49
    ensures var c' := Send(k, c, body, now, nonce, nonce).conn;
            && c'.session == c.session && c'.tx.rekeying && c'.tx.num == c.tx.num + 1
            && c'.tx.sent == c.tx.sent + [body]
  {
    PlainRoundTrip(Data(c.tx.num + 1, body));
    OpenSealed(k, c.session.value.txKey, nonce, PlainBytes(Data(c.tx.num + 1, body)));
  }

  function SendAll(k: Crypto, c: Conn, bodies: seq<bytes>, now: int, nonce: Nonce): Conn
    decreases |bodies|
  {
    if bodies == [] then c else SendAll(k, Send(k, c, bodies[0], now, nonce, nonce).conn, bodies[1..], now, nonce)
  }

  /** While a renewal is awaited, what is sent changes neither the keys nor the flag. */
  lemma {:induction false} WaitingSends(k: Crypto, c: Conn, bodies: seq<bytes>, now: int, nonce: Nonce)
    requires Laws(k) && c.session.Some? && c.tx.rekeying && c.tx.num + |bodies| < U64
    requires forall i :: 0 <= i < |bodies| ==> |bodies[i]| < U32 - 49
    ensures var c' := SendAll(k, c, bodies, now, nonce);
            c'.tx.sent == c.tx.sent + bodies && c'.session == c.session && c'.tx.rekeying
    decreases |bodies|
  {
    if bodies != [] {
      WaitingSend(k, c, bodies[0], now, nonce);
      WaitingSends(k, Send(k, c, bodies[0], now, nonce, nonce).conn, bodies[1..], now, nonce);
      Assoc(c.tx.sent, [bodies[0]], bodies[1..]);
      assert [bodies[0]] + bodies[1..] == bodies;
    } else {
      assert c.tx.sent + bodies == c.tx.sent;
    }
  }

  lemma AnswerForgets(k: Crypto, c: Conn, now: int, nonce: Nonce)
    requires c.session.Some?
    ensures var c' := HandlePlain(k, c, RekeyAck, now, nonce).conn;
            c'.tx.rk == Rk(0, 0, now) && c'.session.Some? && c'.session.value.txKey == c.session.value.txKey
  {}

  /**
   * It is no bound per key: while a renewal is awaited, any number of further messages is sealed under
   * one and the same key, and the answer makes the end forget them.
   */
  lemma {:induction false} NoBoundPerKey(k: Crypto, c: Conn, bodies: seq<bytes>, now: int, nonce: Nonce)
    requires Laws(k) && c.session.Some? && c.tx.rekeying && c.tx.num + |bodies| < U64
    requires forall i :: 0 <= i < |bodies| ==> |bodies[i]| < U32 - 49
    ensures var c' := SendAll(k, c, bodies, now, nonce);
            && c'.tx.sent == c.tx.sent + bodies && c'.session == c.session && c'.tx.rekeying
            && HandlePlain(k, c', RekeyAck, now, nonce).conn.tx.rk == Rk(0, 0, now)
            && HandlePlain(k, c', RekeyAck, now, nonce).conn.session.value.txKey == c.session.value.txKey
  {
    WaitingSends(k, c, bodies, now, nonce);
    AnswerForgets(k, SendAll(k, c, bodies, now, nonce), now, nonce);
  }
}
