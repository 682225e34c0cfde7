/** When the initiator renews its keys, told by what it has sent and by the clock. */
module SessionAccounts {
  import opened Bytes
  import opened Handshake
  import opened SecureConnection
  import opened SessionKeyUse
  import opened SessionLimits
  import opened SessionPair
  import opened SessionRenewal
  import opened SessionRun
  import opened SessionSafety

  /** The bytes of some bodies. */
  function TotalLength(bodies: seq<bytes>): nat {
    if bodies == [] then 0 else |bodies[0]| + TotalLength(bodies[1..])
  }

  lemma {:induction false} TotalLengthAppend(a: seq<bytes>, b: seq<bytes>)
    ensures TotalLength(a + b) == TotalLength(a) + TotalLength(b)
  {
    if a == [] {
      assert a + b == b;
    } else {
      CutFront(a, b, 1);
      TotalLengthAppend(a[1..], b);
    }
  }

  /** The bodies sent since `tx`. */
  function SentSince(tx: Tx, tx': Tx): seq<bytes>
    requires |tx.sent| <= |tx'.sent|
  {
    tx'.sent[|tx.sent|..]
  }

  /** The accounts say how many messages and bytes were sent since `tx`, and since when they count. */
  ghost predicate Ledger(tx: Tx, tx': Tx) {
    && tx.sent <= tx'.sent
    && tx'.rk.msgs == tx.rk.msgs + |SentSince(tx, tx')|
    && tx'.rk.bytes == tx.rk.bytes + TotalLength(SentSince(tx, tx'))
    && tx'.rk.since == tx.rk.since
  }

  lemma LedgerSame(tx: Tx, tx': Tx)
    requires tx'.sent == tx.sent && tx'.rk == tx.rk
    ensures Ledger(tx, tx')
  {
    assert SentSince(tx, tx') == [];
  }

  lemma LedgerOne(tx: Tx, tx': Tx, body: bytes)
    requires tx'.sent == tx.sent + [body] && tx'.rk == Rk(tx.rk.msgs + 1, tx.rk.bytes + |body|, tx.rk.since)
    ensures Ledger(tx, tx')
  {
    assert SentSince(tx, tx') == [body];
    assert TotalLength([body]) == |body| + TotalLength([]);
  }

  lemma LedgerTwo(a: Tx, b: Tx, c: Tx)
    requires Ledger(a, b) && Ledger(b, c)
    ensures Ledger(a, c)
  {
    assert SentSince(a, c) == SentSince(a, b) + SentSince(b, c);
    TotalLengthAppend(SentSince(a, b), SentSince(b, c));
  }

  // ---- One event ----

  lemma SendLedger(k: Crypto, c: Conn, body: bytes, now: int, nonce: Nonce, nonce2: Nonce)
    ensures Ledger(c.tx, Send(k, c, body, now, nonce, nonce2).conn.tx)
  {
    var w := SendData(k, c, body, nonce);
    SendDataLedger(k, c, body, nonce);
    StartRekeyFrame(k, w.conn, nonce2);
    if w.Done? {
      LedgerSame(w.conn.tx, Send(k, c, body, now, nonce, nonce2).conn.tx);
      LedgerTwo(c.tx, w.conn.tx, Send(k, c, body, now, nonce, nonce2).conn.tx);
    }
  }

  lemma SendDataLedger(k: Crypto, c: Conn, body: bytes, nonce: Nonce)
    ensures Ledger(c.tx, SendData(k, c, body, nonce).conn.tx)
  {
    var w := SendData(k, c, body, nonce);
    if c.session.Some? && c.tx.num + 1 < U64 {
      EmitFrame(k, Numbered(c), nonce, Data(c.tx.num + 1, body));
    }
    if w.Done? {
      LedgerOne(c.tx, w.conn.tx, body);
    } else {
      LedgerSame(c.tx, w.conn.tx);
    }
  }

  lemma OpLedger(k: Crypto, kx: bytes, ky: bytes, x: Conn, y: Conn, fx: Flight, fy: Flight, op: Op)
    requires Laws(k) && Pair(k, kx, ky, x, y, fx, fy) && x.session.Some? && !x.tx.rekeying && fy.h == []
    ensures Ledger(x.tx, Apply(k, x, op).tx)
  {
    match op
    case AppSend(body, now, nonce, nonce2) => SendLedger(k, x, body, now, nonce, nonce2);
    case _ =>
      QuietTx(k, kx, ky, x, y, fx, fy, op);
      LedgerSame(x.tx, Apply(k, x, op).tx);
  }

  /** Nothing but `send` touches what the accounts follow, while no answer is awaited. */
  lemma QuietTx(k: Crypto, kx: bytes, ky: bytes, x: Conn, y: Conn, fx: Flight, fy: Flight, op: Op)
    requires Laws(k) && Pair(k, kx, ky, x, y, fx, fy) && x.session.Some? && !x.tx.rekeying && fy.h == []
    requires !op.AppSend?
    ensures Apply(k, x, op).tx.sent == x.tx.sent && Apply(k, x, op).tx.rk == x.tx.rk
  {
    match op
    case AppRekey(nonce) => StartRekeyFrame(k, x, nonce);
    case Tick(now, nonce) => StartRekeyFrame(k, x, nonce);
    case Turn(allowed, now, nonce) => NoStrayAnswer(k, kx, ky, x, y, fx, fy, allowed, now, nonce);
    case AppClose(nonce) => EmitFrame(k, x, nonce, Close);
    case _ =>
  }

  lemma StepLedger(k: Crypto, u: Setup, s: Sys, e: Event)
    requires Laws(k) && Reachable(k, u, s) && s.i.session.Some? && !s.i.tx.rekeying && Joined(e)
    ensures Ledger(s.i.tx, Step(k, s, e).i.tx)
  {
    match e
    case Act(I, op) =>
      var fi, fr := ReachableInv(k, u, s);
      OpLedger(k, FirstI(k, u), FirstR(k, u), s.i, s.r, fi, fr, op);
    case Arrive(I, n) =>
      ReceiveTx(s.i, s.r.sock.out[..Upto(n, s.r.sock.out)]);
      LedgerSame(s.i.tx, Step(k, s, e).i.tx);
    case _ => LedgerSame(s.i.tx, Step(k, s, e).i.tx);
  }

  // ---- Whole runs ----

  /** Over a calm run the accounts are the number and the length of the bodies sent in it. */
  lemma {:induction false} CalmLedger(k: Crypto, u: Setup, s: Sys, events: seq<Event>)
    requires Laws(k) && Reachable(k, u, s) && InTime(s.i) && s.i.session.Some?
    requires Calm(k, s, events) && forall j :: 0 <= j < |events| ==> Joined(events[j])
    ensures Ledger(s.i.tx, Steps(k, s, events).i.tx)
    ensures Reachable(k, u, Steps(k, s, events)) && InTime(Steps(k, s, events).i)
    ensures Steps(k, s, events).i.session.Some? && Steps(k, s, events).i.self == s.i.self
    decreases |events|
  {
    if events == [] {
      LedgerSame(s.i.tx, s.i.tx);
    } else {
      var s1 := Step(k, s, events[0]);
      StepLedger(k, u, s, events[0]);
      CalmStep(k, u, s, events[0]);
      CalmLedger(k, u, s1, events[1..]);
      LedgerTwo(s.i.tx, s1.i.tx, Steps(k, s1, events[1..]).i.tx);
    }
  }

  /** The limits of an end, its defaults in place of options that are absent or zero. */
  lemma PolicyOf(k: Crypto, u: Setup, s: Sys, side: Side)
    requires Reachable(k, u, s)
    ensures var given, used := (if side == I then u.pi else u.pr), End(s, side).self.policy;
            && used.maxPerSecond == (if given.maxPerSecond == 0 then 100 else given.maxPerSecond)
            && used.everyMsgs == (if given.everyMsgs == 0 then 1000 else given.everyMsgs)
            && used.everyBytes == (if given.everyBytes == 0 then 8388608 else given.everyBytes)
            && used.everyMs == (if given.everyMs == 0 then 300000 else given.everyMs)
    ensures End(s, side).self.initiator == (side == I)
  {
    var states, events :| Trace(k, u, states, events) && s == states[|events|];
    SelfStays(k, u, states, events, side, |events|);
  }

  lemma {:induction false} SelfStays(k: Crypto, u: Setup, states: seq<Sys>, events: seq<Event>, side: Side, j: nat)
    requires Trace(k, u, states, events) && j <= |events|
    ensures End(states[j], side).self == End(Start(k, u), side).self
  {
    if j > 0 {
      SelfStays(k, u, states, events, side, j - 1);
      assert Follows(k, states, events, j - 1);
      SideSelf(k, states[j - 1], events[j - 1], side);
    }
  }

  lemma SideSelf(k: Crypto, s: Sys, e: Event, side: Side)
    ensures End(Step(k, s, e), side).self == End(s, side).self
  {
    match e
    case Act(who, op) => if who == side { OpSelf(k, End(s, side), op); }
    case Arrive(who, n) =>
      if who == side {
        var out := End(s, Other(side)).sock.out;
        ReceiveTx(End(s, side), out[..Upto(n, out)]);
      }
  }

  /** Enough messages or enough bytes for a renewal. */
  predicate Full(given: Policy, sent: seq<bytes>) {
    || |sent| >= (if given.everyMsgs == 0 then 1000 else given.everyMsgs)
    || TotalLength(sent) >= (if given.everyBytes == 0 then 8388608 else given.everyBytes)
  }

  /** Whether a renewal is due: enough messages, enough bytes, or enough time. */
  predicate Due(given: Policy, sent: seq<bytes>, elapsed: int) {
    Full(given, sent) || elapsed >= (if given.everyMs == 0 then 300000 else given.everyMs)
  }

  /** The flag after a `send` that returns, or after the timer, on an initiator that awaits nothing. */
  lemma SendSetsFlag(k: Crypto, c: Conn, body: bytes, now: int, nonce: Nonce, nonce2: Nonce)
    requires c.self.initiator && c.session.Some? && !c.tx.rekeying && Send(k, c, body, now, nonce, nonce2).Done?
    ensures var tx' := Send(k, c, body, now, nonce, nonce2).conn.tx;
            tx'.rekeying <==> tx'.rk.msgs >= c.self.policy.everyMsgs || tx'.rk.bytes >= c.self.policy.everyBytes
                              || now - tx'.rk.since >= c.self.policy.everyMs
  {
    var w := SendData(k, c, body, nonce);
    SendDataFrame(k, c, body, nonce);
    StartRekeyFrame(k, w.conn, nonce2);
  }

  lemma TickSetsFlag(k: Crypto, c: Conn, now: int, nonce: Nonce)
    requires c.self.initiator && c.session.Some? && !c.tx.rekeying
    ensures var tx' := MaybeAutoRekey(k, c, now, nonce).tx;
            tx'.rekeying <==> tx'.rk.msgs >= c.self.policy.everyMsgs || tx'.rk.bytes >= c.self.policy.everyBytes
                              || now - tx'.rk.since >= c.self.policy.everyMs
  {
    StartRekeyFrame(k, c, nonce);
  }

  /** An event at which the initiator looks whether to renew: a `send` that returns, or its timer. */
  predicate Looks(k: Crypto, c: Conn, e: Event) {
    && e.Act? && e.side == I
    && (e.op.Tick? || (e.op.AppSend? && Send(k, c, e.op.body, e.op.now, e.op.nonce, e.op.nonce2).Done?))
  }

  lemma LookSetsFlag(k: Crypto, s: Sys, e: Event)
    requires s.i.self.initiator && s.i.session.Some? && !s.i.tx.rekeying && Looks(k, s.i, e)
    ensures var tx', p := Step(k, s, e).i.tx, s.i.self.policy;
            tx'.rekeying <==> tx'.rk.msgs >= p.everyMsgs || tx'.rk.bytes >= p.everyBytes || e.op.now - tx'.rk.since >= p.everyMs
  {
    match e.op
    case AppSend(body, now, nonce, nonce2) => SendSetsFlag(k, s.i, body, now, nonce, nonce2);
    case Tick(now, nonce) => TickSetsFlag(k, s.i, now, nonce);
  }

  /**
   * Exactly when a renewal starts by itself. Since the accounts were last fresh, at time `since`, the
   * initiator has gone through a calm run. At a `send` that returns, and at each tick of its timer, a renewal
   * is then awaited if and only if the bodies sent since, this one included, reach the limit of messages or
   * of bytes, or the time since reaches the limit of time. Before that event they reached neither limit.
   */
  lemma RenewsExactly(k: Crypto, u: Setup, s: Sys, events: seq<Event>, e: Event, since: int)
    requires Laws(k) && Reachable(k, u, s) && s.i.session.Some? && !s.i.tx.rekeying && s.i.tx.rk == Rk(0, 0, since)
    requires Calm(k, s, events) && forall j :: 0 <= j < |events| ==> Joined(events[j])
    requires var s1 := Steps(k, s, events); !s1.i.tx.rekeying && Looks(k, s1.i, e)
    ensures var s1, s2 := Steps(k, s, events), Step(k, Steps(k, s, events), e);
            && s.i.tx.sent <= s1.i.tx.sent <= s2.i.tx.sent
            && !Full(u.pi, SentSince(s.i.tx, s1.i.tx))
            && (s2.i.tx.rekeying <==> Due(u.pi, SentSince(s.i.tx, s2.i.tx), e.op.now - since))
  {
    var states, past :| Trace(k, u, states, past) && s == states[|past|];
    TraceInTime(k, u, states, past, |past|);
    CalmLedger(k, u, s, events);
    var s1 := Steps(k, s, events);
    PolicyOf(k, u, s1, I);
    StepLedger(k, u, s1, e);
    LedgerTwo(s.i.tx, s1.i.tx, Step(k, s1, e).i.tx);
    LookSetsFlag(k, s1, e);
  }

  /** The accounts are made fresh by the answer to a renewal, which ends the wait, and by nothing else. */
  lemma AnswerFreshens(k: Crypto, s: Sys, e: Event)
    requires s.i.tx.rekeying && !Step(k, s, e).i.tx.rekeying
    ensures e.Act? && e.side == I && e.op.Turn? && Step(k, s, e).i.tx.rk == Rk(0, 0, e.op.now)
  {
    match e
    case Act(I, op) =>
      match op {
        case AppSend(body, now, nonce, nonce2) => SendKeepsFlag(k, s.i, body, now, nonce, nonce2);
        case AppRekey(nonce) => StartRekeyFrame(k, s.i, nonce);
        case Tick(now, nonce) => StartRekeyFrame(k, s.i, nonce);
        case Turn(allowed, now, nonce) => TurnTx(k, s.i, allowed, now, nonce);
        case AppClose(nonce) => if s.i.session.Some? { EmitFrame(k, s.i, nonce, Close); }
        case _ =>
      }
    case Arrive(I, n) => ReceiveTx(s.i, s.r.sock.out[..Upto(n, s.r.sock.out)]);
    case _ =>
  }

  lemma SendKeepsFlag(k: Crypto, c: Conn, body: bytes, now: int, nonce: Nonce, nonce2: Nonce)
    requires c.tx.rekeying
    ensures Send(k, c, body, now, nonce, nonce2).conn.tx.rekeying
  {
    var w := SendData(k, c, body, nonce);
    SendDataKeepsKey(k, c, body, nonce);
    StartRekeyFrame(k, w.conn, nonce2);
  }

  lemma HandshakeTurnTx(k: Crypto, c: Conn, allowed: bool, now: int, nonce: Nonce)
    requires c.session.None?
    ensures HandleNext(k, c, allowed, now, nonce).tx == c.tx
  {}

  lemma UnopenedTx(k: Crypto, s: Sys, e: Event)
    requires s.i.session.None?
    ensures Step(k, s, e).i.tx.rk == s.i.tx.rk && Step(k, s, e).i.tx.rekeying == s.i.tx.rekeying
  {
    match e
    case Act(I, op) =>
      match op {
        case Turn(allowed, now, nonce) => HandshakeTurnTx(k, s.i, allowed, now, nonce);
        case _ =>
      }
    case Arrive(I, n) => ReceiveTx(s.i, s.r.sock.out[..Upto(n, s.r.sock.out)]);
    case _ =>
  }

  /** When the session opens they stand as the constructor made them: the time since counts from there. */
  lemma {:induction false} FreshWhenOpened(k: Crypto, u: Setup, states: seq<Sys>, events: seq<Event>, j: nat)
    requires Trace(k, u, states, events) && j <= |events| && (j > 0 ==> states[j - 1].i.session.None?)
    ensures states[j].i.tx.rk == Rk(0, 0, u.ti) && !states[j].i.tx.rekeying
  {
    if j > 0 {
      assert Follows(k, states, events, j - 1);
      if j > 1 {
        assert Follows(k, states, events, j - 2);
        UnopenedBefore(k, states[j - 2], events[j - 2]);
      }
      FreshWhenOpened(k, u, states, events, j - 1);
      UnopenedTx(k, states[j - 1], events[j - 1]);
    }
  }

  /** A session, once open, stays. */
  lemma UnopenedBefore(k: Crypto, s: Sys, e: Event)
    requires Step(k, s, e).i.session.None?
    ensures s.i.session.None?
  {
    if s.i.session.Some? {
      match e
      case Act(I, op) => StaysOpen(k, s.i, op);
      case Arrive(I, n) => ReceiveTx(s.i, s.r.sock.out[..Upto(n, s.r.sock.out)]);
      case _ =>
    }
  }

  lemma FlagStays(k: Crypto, c: Conn, op: Op)
    requires !c.tx.rekeying && !op.AppRekey? && !op.AppSend? && !op.Tick?
    ensures !Apply(k, c, op).tx.rekeying
  {
    match op
    case Turn(allowed, now, nonce) => TurnTx(k, c, allowed, now, nonce);
    case AppClose(nonce) => if c.session.Some? { EmitFrame(k, c, nonce, Close); }
    case _ =>
  }

  lemma SendThrowsQuietly(k: Crypto, c: Conn, body: bytes, now: int, nonce: Nonce, nonce2: Nonce)
    requires !c.tx.rekeying && Send(k, c, body, now, nonce, nonce2).Threw?
    ensures !Send(k, c, body, now, nonce, nonce2).conn.tx.rekeying
  {
    SendDataKeepsKey(k, c, body, nonce);
  }

  /** Nothing else starts a renewal but a call of `rekey`. */
  lemma OnlyLooksRenew(k: Crypto, s: Sys, e: Event)
    requires !s.i.tx.rekeying && Step(k, s, e).i.tx.rekeying
    ensures e.Act? && e.side == I && (e.op.AppRekey? || Looks(k, s.i, e))
  {
    match e
    case Act(I, op) =>
      if op.AppSend? {
        if Send(k, s.i, op.body, op.now, op.nonce, op.nonce2).Threw? {
          SendThrowsQuietly(k, s.i, op.body, op.now, op.nonce, op.nonce2);
        }
      } else if !op.AppRekey? && !op.Tick? {
        FlagStays(k, s.i, op);
      }
    case Arrive(I, n) => ReceiveTx(s.i, s.r.sock.out[..Upto(n, s.r.sock.out)]);
    case _ =>
  }

  /** An end that is no initiator never renews of itself. */
  lemma ResponderNeverRenews(k: Crypto, c: Conn, op: Op)
    requires !c.self.initiator && !c.tx.rekeying && Apply(k, c, op).tx.rekeying
    ensures op.AppRekey?
  {
    match op
    case AppSend(body, now, nonce, nonce2) =>
      SendDataKeepsKey(k, c, body, nonce);
      OpSelf(k, c, op);
      SendDataSelf(k, c, body, nonce);
    case Tick(_, _) =>
    case AppRekey(_) =>
    case _ => FlagStays(k, c, op);
  }

  lemma SendDataSelf(k: Crypto, c: Conn, body: bytes, nonce: Nonce)
    ensures SendData(k, c, body, nonce).conn.self == c.self
  {
    if c.session.Some? {
      SendDataFrame(k, c, body, nonce);
    }
  }

  // ---- Against any peer ----

  /** A turn that handles an answer to a renewal, awaited or not. */
  predicate Answered(k: Crypto, c: Conn, op: Op) {
    && op.Turn? && op.allowed && c.session.Some? && c.rx.pending != []
    && var pt := OpenUnder(k, c.session.value.rxKey, c.rx.pending[0]);
       pt.Some? && |pt.value| >= 1 && pt.value[0] == 2
  }

  lemma UnansweredTurn(k: Crypto, c: Conn, allowed: bool, now: int, nonce: Nonce)
    requires !Answered(k, c, Turn(allowed, now, nonce))
    ensures HandleNext(k, c, allowed, now, nonce).tx == c.tx
  {}

  lemma UnansweredLedger(k: Crypto, c: Conn, op: Op)
    requires !Answered(k, c, op)
    ensures Ledger(c.tx, Apply(k, c, op).tx)
  {
    match op
    case AppSend(body, now, nonce, nonce2) => SendLedger(k, c, body, now, nonce, nonce2);
    case AppRekey(nonce) => StartRekeyFrame(k, c, nonce); LedgerSame(c.tx, Apply(k, c, op).tx);
    case Tick(now, nonce) => StartRekeyFrame(k, c, nonce); LedgerSame(c.tx, Apply(k, c, op).tx);
    case AppClose(nonce) => CloseTx(k, c, nonce); LedgerSame(c.tx, Apply(k, c, op).tx);
    case Turn(allowed, now, nonce) => UnansweredTurn(k, c, allowed, now, nonce); LedgerSame(c.tx, Apply(k, c, op).tx);
    case _ => LedgerSame(c.tx, Apply(k, c, op).tx);
  }

  lemma CloseTx(k: Crypto, c: Conn, nonce: Nonce)
    ensures Shut(k, c, nonce).tx == c.tx
  {
    if c.session.Some? {
      EmitFrame(k, c, nonce, Close);
    }
  }

  ghost predicate Unanswered(k: Crypto, c: Conn, ops: seq<Op>)
    decreases |ops|
  {
    ops != [] ==> !Answered(k, c, ops[0]) && Unanswered(k, Apply(k, c, ops[0]), ops[1..])
  }

  lemma {:induction false} UnansweredRun(k: Crypto, c: Conn, ops: seq<Op>)
    requires Unanswered(k, c, ops)
    ensures Ledger(c.tx, Run(k, c, ops).tx)
    decreases |ops|
  {
    if ops == [] {
      LedgerSame(c.tx, c.tx);
    } else {
      UnansweredLedger(k, c, ops[0]);
      UnansweredRun(k, Apply(k, c, ops[0]), ops[1..]);
      LedgerTwo(c.tx, Apply(k, c, ops[0]).tx, Run(k, c, ops).tx);
    }
  }

  /**
   * Whatever the peer sends short of an answer: since the accounts were fresh an initiator has sent fewer
   * than `everyMsgs` messages and `everyBytes` bytes, or it awaits a renewal.
   */
  lemma SentInTime(k: Crypto, c: Conn, ops: seq<Op>, since: int)
    requires InTime(c) && c.self.initiator && c.tx.rk == Rk(0, 0, since) && Unanswered(k, c, ops)
    ensures var c' := Run(k, c, ops);
            && c.tx.sent <= c'.tx.sent && c'.self == c.self
            && (c'.session.Some? && !c'.tx.rekeying ==>
                  && |SentSince(c.tx, c'.tx)| < c.self.policy.everyMsgs
                  && TotalLength(SentSince(c.tx, c'.tx)) < c.self.policy.everyBytes)
  {
    UnansweredRun(k, c, ops);
    AlwaysInTime(k, c, ops);
    RunSelf(k, c, ops);
  }

  lemma {:induction false} RunSelf(k: Crypto, c: Conn, ops: seq<Op>)
    ensures Run(k, c, ops).self == c.self
    decreases |ops|
  {
    if ops != [] {
      OpSelf(k, c, ops[0]);
      RunSelf(k, Apply(k, c, ops[0]), ops[1..]);
    }
  }
}
