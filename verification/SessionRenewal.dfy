/** How many messages an initiator sends between two renewals of its keys, with an honest peer. */
module SessionRenewal {
  import opened Bytes
  import opened Handshake
  import opened SecureConnection
  import opened SessionLimits
  import opened SessionPair
  import opened SessionQueue
  import opened SessionRun
  import opened SessionSafety

  lemma ActedTx(k: Crypto, x: Conn, p: Plain, now: int, nonce: Nonce)
    requires x.session.Some? && x.rx.pending != [] && !p.RekeyAck?
    ensures Acted(k, x, p, now, nonce).tx == x.tx
  {}

  /** An end that awaits no renewal gets no answer to one: a turn leaves its accounts alone. */
  lemma NoStrayAnswer(k: Crypto, kx: bytes, ky: bytes, x: Conn, y: Conn, fx: Flight, fy: Flight,
                      allowed: bool, now: int, nonce: Nonce)
    requires Laws(k) && Pair(k, kx, ky, x, y, fx, fy) && x.session.Some? && !x.tx.rekeying && fy.h == []
    ensures HandleNext(k, x, allowed, now, nonce).tx == x.tx
  {
    if x.rx.pending != [] && allowed {
      TurnReads(k, kx, ky, x, y, fx, fy);
      var p := fy.q[0].plain;
      if p.RekeyAck? {
        BalanceAck(x, y, fx.q, fy.q, x);
      } else {
        TurnActs(k, x, p, now, nonce);
        ActedTx(k, x, p, now, nonce);
      }
    }
  }

  /** What the accounts say was sent since the last renewal. */
  ghost predicate Counted(tx: Tx, tx': Tx) {
    && |tx.sent| <= |tx'.sent| <= |tx.sent| + 1
    && tx'.rk.msgs - tx.rk.msgs == |tx'.sent| - |tx.sent|
  }

  lemma SendCounts(k: Crypto, c: Conn, body: bytes, now: int, nonce: Nonce, nonce2: Nonce)
    ensures Counted(c.tx, Send(k, c, body, now, nonce, nonce2).conn.tx)
  {
    if c.session.Some? {
      var w := SendData(k, c, body, nonce);
      SendDataCounts(k, c, body, nonce);
      StartRekeyFrame(k, w.conn, nonce2);
    }
  }

  lemma SendDataCounts(k: Crypto, c: Conn, body: bytes, nonce: Nonce)
    requires c.session.Some?
    ensures Counted(c.tx, SendData(k, c, body, nonce).conn.tx)
  {
    if c.tx.num + 1 < U64 {
      EmitFrame(k, Numbered(c), nonce, Data(c.tx.num + 1, body));
    }
  }

  lemma OpCounts(k: Crypto, kx: bytes, ky: bytes, x: Conn, y: Conn, fx: Flight, fy: Flight, op: Op)
    requires Laws(k) && Pair(k, kx, ky, x, y, fx, fy) && x.session.Some? && !x.tx.rekeying && fy.h == []
    ensures Counted(x.tx, Apply(k, x, op).tx)
  {
    match op
    case AppSend(body, now, nonce, nonce2) => SendCounts(k, x, body, now, nonce, nonce2);
    case AppRekey(nonce) => StartRekeyFrame(k, x, nonce);
    case Tick(now, nonce) => StartRekeyFrame(k, x, nonce);
    case Turn(allowed, now, nonce) => NoStrayAnswer(k, kx, ky, x, y, fx, fy, allowed, now, nonce);
    case AppClose(nonce) => EmitFrame(k, x, nonce, Close);
    case _ =>
  }

  lemma ReceiveTx(c: Conn, chunk: bytes)
    ensures Receive(c, chunk).tx == c.tx && Receive(c, chunk).self == c.self
    ensures Receive(c, chunk).session == c.session
  {}

  /** What one event does to the initiator's accounts and session. */
  ghost predicate InitiatorStep(c: Conn, c': Conn) {
    Counted(c.tx, c'.tx) && InTime(c') && c'.self == c.self && c'.session.Some?
  }

  lemma ActCounts(k: Crypto, u: Setup, s: Sys, fi: Flight, fr: Flight, op: Op)
    requires Laws(k) && Inv(k, u, s, fi, fr) && InTime(s.i) && s.i.session.Some? && !s.i.tx.rekeying && !op.Chunk?
    ensures InitiatorStep(s.i, Apply(k, s.i, op))
  {
    OpCounts(k, FirstI(k, u), FirstR(k, u), s.i, s.r, fi, fr, op);
    OpInTime(k, s.i, op);
    StaysOpen(k, s.i, op);
  }

  lemma StaysOpen(k: Crypto, c: Conn, op: Op)
    requires c.session.Some?
    ensures Apply(k, c, op).session.Some?
  {
    match op
    case Turn(allowed, now, nonce) => TurnTx(k, c, allowed, now, nonce);
    case _ =>
  }

  /** One event: the initiator's accounts, session and bounds. */
  lemma StepCounts(k: Crypto, u: Setup, s: Sys, fi: Flight, fr: Flight, e: Event)
    requires Laws(k) && Inv(k, u, s, fi, fr) && InTime(s.i) && s.i.session.Some? && !s.i.tx.rekeying && Joined(e)
    ensures InitiatorStep(s.i, Step(k, s, e).i)
  {
    match e
    case Act(I, op) => ActCounts(k, u, s, fi, fr, op);
    case Act(R, op) =>
    case Arrive(I, n) => ReceiveTx(s.i, s.r.sock.out[..Upto(n, s.r.sock.out)]);
    case Arrive(R, n) =>
  }

  /** No renewal is awaited from here until the last of the events. */
  ghost predicate Calm(k: Crypto, s: Sys, events: seq<Event>)
    decreases |events|
  {
    events != [] ==> !s.i.tx.rekeying && Calm(k, Step(k, s, events[0]), events[1..])
  }

  function Steps(k: Crypto, s: Sys, events: seq<Event>): Sys
    decreases |events|
  {
    if events == [] then s else Steps(k, Step(k, s, events[0]), events[1..])
  }

  lemma CalmStep(k: Crypto, u: Setup, s: Sys, e: Event)
    requires Laws(k) && Reachable(k, u, s) && InTime(s.i) && s.i.session.Some? && !s.i.tx.rekeying && Joined(e)
    ensures InitiatorStep(s.i, Step(k, s, e).i) && Reachable(k, u, Step(k, s, e))
  {
    var fi, fr := ReachableInv(k, u, s);
    StepCounts(k, u, s, fi, fr, e);
    ReachableStep(k, u, s, e);
  }

  /** Every event on the way is one the accounts keep track of. */
  ghost predicate Tracked(k: Crypto, s: Sys, events: seq<Event>)
    decreases |events|
  {
    events != [] ==>
      !s.i.tx.rekeying && InitiatorStep(s.i, Step(k, s, events[0]).i) && Tracked(k, Step(k, s, events[0]), events[1..])
  }

  lemma {:induction false} CalmTracked(k: Crypto, u: Setup, s: Sys, events: seq<Event>)
    requires Laws(k) && Reachable(k, u, s) && InTime(s.i) && s.i.session.Some?
    requires Calm(k, s, events) && forall j :: 0 <= j < |events| ==> Joined(events[j])
    ensures Tracked(k, s, events)
    decreases |events|
  {
    if events != [] {
      CalmStep(k, u, s, events[0]);
      CalmTracked(k, u, Step(k, s, events[0]), events[1..]);
    }
  }

  lemma {:induction false} TrackedCounts(k: Crypto, s: Sys, events: seq<Event>)
    requires InTime(s.i) && s.i.self.initiator && s.i.session.Some? && Tracked(k, s, events)
    requires !s.i.tx.rekeying
    ensures |Steps(k, s, events).i.tx.sent| <= |s.i.tx.sent| + s.i.self.policy.everyMsgs - s.i.tx.rk.msgs
    decreases |events|
  {
    if events != [] && events[1..] != [] {
      TrackedCounts(k, Step(k, s, events[0]), events[1..]);
    }
  }

  lemma {:induction false} TraceInTime(k: Crypto, u: Setup, states: seq<Sys>, events: seq<Event>, j: nat)
    requires Trace(k, u, states, events) && j <= |events|
    ensures InTime(states[j].i)
  {
    if j == 0 {
      OpenedInTime(k, true, u.i, u.pi, u.ti);
    } else {
      TraceInTime(k, u, states, events, j - 1);
      assert Follows(k, states, events, j - 1);
      StepInTime(k, states[j - 1], events[j - 1]);
    }
  }

  lemma StepInTime(k: Crypto, s: Sys, e: Event)
    requires InTime(s.i)
    ensures InTime(Step(k, s, e).i)
  {
    match e
    case Act(I, op) => OpInTime(k, s.i, op);
    case Arrive(I, n) => OpInTime(k, s.i, Chunk(s.r.sock.out[..Upto(n, s.r.sock.out)]));
    case _ =>
  }

  /**
   * Between two renewals. From a state where the initiator has just been answered, up to and including
   * the event that starts the next renewal, it sends at most `everyMsgs` messages.
   */
  lemma BetweenRenewals(k: Crypto, u: Setup, s: Sys, events: seq<Event>)
    requires Laws(k) && Reachable(k, u, s) && s.i.session.Some? && !s.i.tx.rekeying && s.i.tx.rk.msgs == 0
    requires Calm(k, s, events) && forall j :: 0 <= j < |events| ==> Joined(events[j])
    ensures |Steps(k, s, events).i.tx.sent| <= |s.i.tx.sent| + s.i.self.policy.everyMsgs
  {
    var states, past :| Trace(k, u, states, past) && s == states[|past|];
    TraceInTime(k, u, states, past, |past|);
    var fi, fr := ReachableInv(k, u, s);
    CalmTracked(k, u, s, events);
    TrackedCounts(k, s, events);
  }
}
