/** How many messages an initiator seals under one key. */
module SessionKeyUse {
  import opened Bytes
  import opened Frame
  import opened Handshake
  import opened SecureConnection
  import opened SessionLimits
  import opened SessionLink
  import opened SessionOpening
  import opened SessionPair
  import opened SessionQueue
  import opened SessionRenewal
  import opened SessionRun
  import opened SessionSafety

  /** The generation of the sending key. */
  function Gen(c: Conn): nat {
    Sending(c).txGen
  }

  /** The step from `c` to `c'` sent a message, under the key of `c`. */
  predicate Sends(c: Conn, c': Conn) {
    |c'.tx.sent| > |c.tx.sent|
  }

  /** How many of the first `j` events sent a message under generation `g`. */
  function SealedUnder(states: seq<Sys>, g: nat, j: nat): nat
    requires j < |states|
  {
    if j == 0 then 0
    else
      var c := states[j - 1].i;
      SealedUnder(states, g, j - 1) + if Gen(c) == g && Sends(c, states[j].i) then 1 else 0
  }

  /** How many of them did so while the answer to a renewal was awaited. */
  function WaitedUnder(states: seq<Sys>, g: nat, j: nat): nat
    requires j < |states|
  {
    if j == 0 then 0
    else
      var c := states[j - 1].i;
      WaitedUnder(states, g, j - 1) + if Gen(c) == g && c.tx.rekeying && Sends(c, states[j].i) then 1 else 0
  }

  // ---- What a step does to key and accounts ----

  /** Keys only advance, and a renewal that starts advances the sending key. */
  ghost predicate Advances(c: Conn, c': Conn) {
    Gen(c') >= Gen(c) && (c'.tx.rekeying && !c.tx.rekeying ==> Gen(c') > Gen(c))
  }

  lemma StartRekeyAdvances(k: Crypto, c: Conn, nonce: Nonce)
    requires Laws(k)
    ensures Advances(c, StartRekey(k, c, nonce))
  {
    if c.session.Some? {
      OpenSealed(k, c.session.value.txKey, nonce, PlainBytes(Rekey));
    }
  }

  lemma SendDataKeepsKey(k: Crypto, c: Conn, body: bytes, nonce: Nonce)
    ensures var c' := SendData(k, c, body, nonce).conn; c'.session == c.session && c'.tx.rekeying == c.tx.rekeying
  {}

  lemma TurnAdvances(k: Crypto, c: Conn, allowed: bool, now: int, nonce: Nonce)
    ensures Advances(c, HandleNext(k, c, allowed, now, nonce))
  {
    TurnTx(k, c, allowed, now, nonce);
    if c.session.Some? {
      SealedAdvances(k, c, allowed, now, nonce);
    }
  }

  lemma SealedAdvances(k: Crypto, c: Conn, allowed: bool, now: int, nonce: Nonce)
    requires c.session.Some?
    ensures Gen(HandleNext(k, c, allowed, now, nonce)) >= Gen(c)
  {}

  lemma OpAdvances(k: Crypto, c: Conn, op: Op)
    requires Laws(k)
    ensures Advances(c, Apply(k, c, op))
  {
    match op
    case AppSend(body, now, nonce, nonce2) =>
      SendDataKeepsKey(k, c, body, nonce);
      StartRekeyAdvances(k, SendData(k, c, body, nonce).conn, nonce2);
    case AppRekey(nonce) => StartRekeyAdvances(k, c, nonce);
    case Tick(now, nonce) => StartRekeyAdvances(k, c, nonce);
    case Turn(allowed, now, nonce) => TurnAdvances(k, c, allowed, now, nonce);
    case AppClose(nonce) => if c.session.Some? { EmitFrame(k, c, nonce, Close); }
    case _ =>
  }

  lemma StepAdvances(k: Crypto, s: Sys, e: Event)
    requires Laws(k)
    ensures Advances(s.i, Step(k, s, e).i)
  {
    match e
    case Act(I, op) => OpAdvances(k, s.i, op);
    case Arrive(I, n) => ReceiveTx(s.i, s.r.sock.out[..Upto(n, s.r.sock.out)]);
    case _ =>
  }

  /** What the accounts allow for under the current key. */
  function Allowance(c: Conn): nat {
    if c.tx.rekeying then 0 else c.tx.rk.msgs
  }

  /** The accounts follow the messages sent, except those sent while an answer is awaited. */
  ghost predicate Accounts(c: Conn, c': Conn) {
    var d := if Sends(c, c') && !c.tx.rekeying then 1 else 0;
    && c'.self == c.self && Gen(c') >= Gen(c)
    && (Gen(c') == Gen(c) ==> Allowance(c) + d <= Allowance(c'))
    && Allowance(c) + d <= c.self.policy.everyMsgs
  }

  lemma StepAccounts(k: Crypto, u: Setup, s: Sys, e: Event)
    requires Laws(k) && Reachable(k, u, s) && InTime(s.i) && Joined(e) && s.i.self.initiator
    ensures Accounts(s.i, Step(k, s, e).i)
  {
    StepAdvances(k, s, e);
    if s.i.session.Some? && !s.i.tx.rekeying {
      CalmStep(k, u, s, e);
    } else {
      StepSelf(k, s, e);
    }
  }

  /** Without a session nothing is sent; and no event changes who an end is. */
  lemma StepSelf(k: Crypto, s: Sys, e: Event)
    ensures Step(k, s, e).i.self == s.i.self
    ensures s.i.session.None? ==> !Sends(s.i, Step(k, s, e).i)
  {
    match e
    case Act(I, op) =>
      OpSelf(k, s.i, op);
      SentLog(k, s.i, op);
    case Arrive(I, n) => ReceiveTx(s.i, s.r.sock.out[..Upto(n, s.r.sock.out)]);
    case _ =>
  }

  lemma OpSelf(k: Crypto, c: Conn, op: Op)
    ensures Apply(k, c, op).self == c.self
  {
    if op.Turn? {
      TurnTx(k, c, op.allowed, op.now, op.nonce);
    } else {
      OthersTell(k, c, op);
    }
  }

  // ---- The bound ----

  /** The use of every key so far. */
  ghost predicate UsedWithin(states: seq<Sys>, j: nat, c: Conn)
    requires j < |states|
  {
    && (forall g: nat :: SealedUnder(states, g, j) <= WaitedUnder(states, g, j) + c.self.policy.everyMsgs)
    && (forall g: nat :: g > Gen(c) ==> SealedUnder(states, g, j) == 0)
    && SealedUnder(states, Gen(c), j) <= WaitedUnder(states, Gen(c), j) + Allowance(c)
  }

  lemma UsedStep(states: seq<Sys>, j: nat)
    requires 0 < j < |states| && Accounts(states[j - 1].i, states[j].i)
    requires UsedWithin(states, j - 1, states[j - 1].i)
    ensures UsedWithin(states, j, states[j].i)
  {
    var c, c' := states[j - 1].i, states[j].i;
    forall g: nat
      ensures SealedUnder(states, g, j) <= WaitedUnder(states, g, j) + c'.self.policy.everyMsgs
      ensures g > Gen(c') ==> SealedUnder(states, g, j) == 0
    {
      assert SealedUnder(states, g, j - 1) <= WaitedUnder(states, g, j - 1) + c.self.policy.everyMsgs;
      assert g > Gen(c) ==> SealedUnder(states, g, j - 1) == 0;
    }
    assert SealedUnder(states, Gen(c'), j - 1) <= WaitedUnder(states, Gen(c'), j - 1) + c.self.policy.everyMsgs;
  }

  lemma {:induction false} KeyUse(k: Crypto, u: Setup, states: seq<Sys>, events: seq<Event>, j: nat)
    requires Laws(k) && Trace(k, u, states, events) && j <= |events|
    ensures UsedWithin(states, j, states[j].i)
    ensures states[j].i.self == Start(k, u).i.self
  {
    if j > 0 {
      KeyUse(k, u, states, events, j - 1);
      PrefixReachable(k, u, states, events, j - 1);
      TraceInTime(k, u, states, events, j - 1);
      assert Follows(k, states, events, j - 1);
      StepAccounts(k, u, states[j - 1], events[j - 1]);
      UsedStep(states, j);
    }
  }

  lemma PrefixReachable(k: Crypto, u: Setup, states: seq<Sys>, events: seq<Event>, j: nat)
    requires Trace(k, u, states, events) && j <= |events|
    ensures Reachable(k, u, states[j])
  {
    var states', events' := states[..j + 1], events[..j];
    forall i | 0 <= i < |events'|
      ensures Follows(k, states', events', i)
    {
      assert Follows(k, states, events, i);
    }
    assert Trace(k, u, states', events') && states[j] == states'[|events'|];
  }

  /**
   * Use of one key. In every run and for every generation of the initiator's key, the messages sealed
   * under it exceed those sent while an answer was awaited by at most `everyMsgs`.
   */
  lemma PerKeyBound(k: Crypto, u: Setup, states: seq<Sys>, events: seq<Event>, g: nat)
    requires Laws(k) && Trace(k, u, states, events)
    ensures SealedUnder(states, g, |events|) <= WaitedUnder(states, g, |events|) + Effective(u.pi).everyMsgs
  {
    KeyUse(k, u, states, events, |events|);
  }

  /** The application of the initiator sends nothing while the answer to a renewal is awaited. */
  ghost predicate Patient(states: seq<Sys>, events: seq<Event>)
    requires |states| == |events| + 1
  {
    forall j :: 0 <= j < |events| && events[j].Act? && events[j].side == I && events[j].op.AppSend? ==>
      !states[j].i.tx.rekeying
  }

  lemma OnlySendSends(k: Crypto, s: Sys, e: Event)
    requires Sends(s.i, Step(k, s, e).i)
    ensures e.Act? && e.side == I && e.op.AppSend?
  {
    match e
    case Act(I, op) => SentLog(k, s.i, op);
    case Arrive(I, n) => ReceiveTx(s.i, s.r.sock.out[..Upto(n, s.r.sock.out)]);
    case _ =>
  }

  lemma {:induction false} PatientNeverWaits(k: Crypto, u: Setup, states: seq<Sys>, events: seq<Event>, g: nat, j: nat)
    requires Trace(k, u, states, events) && Patient(states, events) && j <= |events|
    ensures WaitedUnder(states, g, j) == 0
  {
    if j > 0 {
      PatientNeverWaits(k, u, states, events, g, j - 1);
      assert Follows(k, states, events, j - 1);
      if Sends(states[j - 1].i, states[j].i) {
        OnlySendSends(k, states[j - 1], events[j - 1]);
      }
    }
  }

  /** So in a patient run at most `everyMsgs` messages are sealed under any one key. */
  lemma PatientKeyBound(k: Crypto, u: Setup, states: seq<Sys>, events: seq<Event>, g: nat)
    requires Laws(k) && Trace(k, u, states, events) && Patient(states, events)
    ensures SealedUnder(states, g, |events|) <= Effective(u.pi).everyMsgs
  {
    PerKeyBound(k, u, states, events, g);
    PatientNeverWaits(k, u, states, events, g, |events|);
  }

  // ---- An impatient run exceeds it ----

  lemma {:induction false} CountsOfPrefix(states: seq<Sys>, more: seq<Sys>, g: nat, j: nat)
    requires j < |states|
    ensures SealedUnder(states + more, g, j) == SealedUnder(states, g, j)
    ensures WaitedUnder(states + more, g, j) == WaitedUnder(states, g, j)
  {
    if j > 0 {
      CountsOfPrefix(states, more, g, j - 1);
    }
  }

  lemma Extend(k: Crypto, u: Setup, states: seq<Sys>, events: seq<Event>, e: Event)
    requires Trace(k, u, states, events) && Joined(e)
    ensures Trace(k, u, states + [Step(k, states[|events|], e)], events + [e])
  {
    var states', events' := states + [Step(k, states[|events|], e)], events + [e];
    forall j | 0 <= j < |events'|
      ensures Follows(k, states', events', j)
    {
      if j < |events| {
        assert Follows(k, states, events, j);
      }
    }
  }

  /** A run that goes on with one more event, and what that event adds to the use of a key. */
  lemma OneMore(k: Crypto, u: Setup, states: seq<Sys>, events: seq<Event>, e: Event, g: nat)
    returns (states': seq<Sys>, events': seq<Event>)
    requires Trace(k, u, states, events) && Joined(e)
    ensures Trace(k, u, states', events') && states'[|events'|] == Step(k, states[|events|], e)
    ensures var c := states[|events|].i;
            var d := if Gen(c) == g && Sends(c, Step(k, states[|events|], e).i) then 1 else 0;
            && SealedUnder(states', g, |events'|) == SealedUnder(states, g, |events|) + d
            && WaitedUnder(states', g, |events'|) == WaitedUnder(states, g, |events|) + if c.tx.rekeying then d else 0
  {
    var s' := Step(k, states[|events|], e);
    states', events' := states + [s'], events + [e];
    Extend(k, u, states, events, e);
    CountsOfPrefix(states, [s'], g, |events|);
  }

  /** The same session, awaiting the same answer, after `n` more messages. */
  ghost predicate StillWaiting(c: Conn, c': Conn, n: nat) {
    && c'.session == c.session && c'.tx.rekeying && c'.tx.num == c.tx.num + n
    && c'.rx == c.rx && c'.self == c.self && c'.sock.closed == c.sock.closed && c'.sock.destroyed == c.sock.destroyed
  }

  /** Any number of messages while an answer is awaited. */
  lemma {:induction false} WaitMany(k: Crypto, u: Setup, states: seq<Sys>, events: seq<Event>, nonce: Nonce, n: nat)
    returns (states': seq<Sys>, events': seq<Event>)
    requires Laws(k) && Trace(k, u, states, events)
    requires var c := states[|events|].i; c.session.Some? && c.tx.rekeying && c.tx.num + n < U64
    ensures Trace(k, u, states', events') && StillWaiting(states[|events|].i, states'[|events'|].i, n)
    ensures var g := Gen(states[|events|].i);
            && SealedUnder(states', g, |events'|) == SealedUnder(states, g, |events|) + n
            && WaitedUnder(states', g, |events'|) == WaitedUnder(states, g, |events|) + n
    decreases n
  {
    states', events' := states, events;
    if n > 0 {
      var c := states[|events|].i;
      WaitingSend(k, c, [], 0, nonce);
      SendLeaves(k, c, [], 0, nonce, nonce);
      var states1, events1 := OneMore(k, u, states, events, Act(I, AppSend([], 0, nonce, nonce)), Gen(c));
      states', events' := WaitMany(k, u, states1, events1, nonce, n - 1);
    }
  }

  /**
   * Without patience there is no bound per key: for any `n`, some run seals `n` messages under one key,
   * by renewing on an open session and sending before the answer comes.
   */
  lemma ImpatientRun(k: Crypto, u: Setup, n: nat)
    requires Laws(k) && n < U64
    ensures exists states, events, g: nat ::
              Trace(k, u, states, events) && SealedUnder(states, g, |events|) >= n
  {
    var nonce: Nonce := seq(NONCE_LEN, i => 0);
    var s := HandshakeCompletes(k, u);
    ReachableStep(k, u, s, Act(I, AppRekey(nonce)));
    StartRekeyFrame(k, s.i, nonce);
    var s1 := Step(k, s, Act(I, AppRekey(nonce)));
    var states, events :| Trace(k, u, states, events) && s1 == states[|events|];
    var states', events' := WaitMany(k, u, states, events, nonce, n);
  }

  // ---- The bound is reached ----

  /** A message sent on fresh accounts: counted, and no renewal starts before the last one allowed. */
  lemma CalmSend(k: Crypto, c: Conn, m: nat, nonce: Nonce)
    requires Laws(k) && c.session.Some? && !c.tx.rekeying && c.tx.num + 1 < U64 && c.tx.rk == Rk(m, 0, 0)
    requires c.self.policy.everyBytes > 0 && c.self.policy.everyMs > 0
    ensures var c' := Send(k, c, [], 0, nonce, nonce).conn;
            && Sends(c, c')
            && (m + 1 < c.self.policy.everyMsgs ==>
                  c'.session == c.session && c'.self == c.self && c'.tx == Account(Numbered(c).tx, []))
  {
    PlainRoundTrip(Data(c.tx.num + 1, []));
    OpenSealed(k, c.session.value.txKey, nonce, PlainBytes(Data(c.tx.num + 1, [])));
    SentLog(k, c, AppSend([], 0, nonce, nonce));
  }

  /** `n` messages on fresh accounts, all under one key. */
  lemma {:induction false} CalmMany(k: Crypto, u: Setup, states: seq<Sys>, events: seq<Event>, nonce: Nonce, m: nat, n: nat)
    returns (states': seq<Sys>, events': seq<Event>)
    requires Laws(k) && Trace(k, u, states, events)
    requires var c := states[|events|].i;
             && c.session.Some? && !c.tx.rekeying && c.tx.num + n < U64 && c.tx.rk == Rk(m, 0, 0)
             && c.self.policy.everyBytes > 0 && c.self.policy.everyMs > 0 && m + n <= c.self.policy.everyMsgs
    ensures Trace(k, u, states', events')
    ensures var g := Gen(states[|events|].i);
            && SealedUnder(states', g, |events'|) == SealedUnder(states, g, |events|) + n
            && WaitedUnder(states', g, |events'|) == WaitedUnder(states, g, |events|)
    decreases n
  {
    states', events' := states, events;
    if n > 0 {
      CalmSend(k, states[|events|].i, m, nonce);
      states', events' := OneMore(k, u, states, events, Act(I, AppSend([], 0, nonce, nonce)), Gen(states[|events|].i));
      if n > 1 {
        states', events' := CalmMany(k, u, states', events', nonce, m + 1, n - 1);
      }
    }
  }

  /** The initiator renews: its REKEY is on the wire. */
  lemma RenewalWrites(k: Crypto, c: Conn, nonce: Nonce)
    requires Laws(k) && c.session.Some? && !c.tx.rekeying && Writable(c) && c.sock.out == []
    ensures var f := SealUnder(k, c.session.value.txKey, nonce, PlainBytes(Rekey));
            && |f| <= SESSION_MAX_FRAME && EncodeFrame(f).Some?
            && StartRekey(k, c, nonce) == c.(tx := c.tx.(rekeying := true), session := Some(RekeyTx(k, c.session.value)),
                                             sock := c.sock.(out := EncodeFrame(f).value))
  {
    OpenSealed(k, c.session.value.txKey, nonce, PlainBytes(Rekey));
    PlainRoundTrip(Rekey);
    var f := SealUnder(k, c.session.value.txKey, nonce, PlainBytes(Rekey));
    assert [] + EncodeFrame(f).value == EncodeFrame(f).value;
  }

  /** The responder takes the REKEY and answers it. */
  lemma AnswerWrites(k: Crypto, c: Conn, f: bytes, nonce: Nonce)
    requires Laws(k) && c.session.Some? && Waiting(c) && c.sock.out == []
    requires OpenUnder(k, c.session.value.rxKey, f) == Some(PlainBytes(Rekey))
    ensures var a := SealUnder(k, c.session.value.txKey, nonce, PlainBytes(RekeyAck));
            && |a| <= SESSION_MAX_FRAME
            && EncodeFrame(a) == Some(HandleNext(k, Given(c, f), true, 0, nonce).sock.out)
  {
    PlainRoundTrip(Rekey);
    OpenSealed(k, c.session.value.txKey, nonce, PlainBytes(RekeyAck));
    PlainRoundTrip(RekeyAck);
    TurnActs(k, Given(c, f), Rekey, 0, nonce);
    var a := SealUnder(k, c.session.value.txKey, nonce, PlainBytes(RekeyAck));
    assert [] + EncodeFrame(a).value == EncodeFrame(a).value;
  }

  function Asking(nonce: Nonce): seq<Event> {
    [Arrive(R, U32), Act(R, Turn(true, 0, nonce)), Arrive(I, U32)]
  }

  /** A frame reaches the responder, which answers it; the answer reaches the initiator. */
  lemma Exchange(k: Crypto, s: Sys, f: bytes, a: bytes, nonce: Nonce)
    requires Waiting(s.i) && Waiting(s.r) && EncodeFrame(f) == Some(s.i.sock.out)
    requires |f| <= SESSION_MAX_FRAME && |a| <= SESSION_MAX_FRAME
    requires EncodeFrame(a) == Some(HandleNext(k, Given(s.r, f), true, 0, nonce).sock.out)
    ensures Steps(k, s, Asking(nonce)).i == Given(Sent(s.i), a)
  {
    ArrivesR(k, s, f);
    ArrivesI(k, Sys(Sent(s.i), HandleNext(k, Given(s.r, f), true, 0, nonce)), a);
    ThreeSteps(k, s, Arrive(R, U32), Act(R, Turn(true, 0, nonce)), Arrive(I, U32));
  }

  lemma ThreeSteps(k: Crypto, s: Sys, e1: Event, e2: Event, e3: Event)
    ensures Steps(k, s, [e1, e2, e3]) == Step(k, Step(k, Step(k, s, e1), e2), e3)
  {
    var s1 := Step(k, s, e1);
    var s2 := Step(k, s1, e2);
    assert [e1, e2, e3][1..] == [e2, e3] && [e2, e3][1..] == [e3] && [e3][1..] == [];
    assert Steps(k, s2, [e3]) == Step(k, s2, e3);
    assert Steps(k, s1, [e2, e3]) == Steps(k, s2, [e3]);
  }

  /** The initiator of a new session renews its key and decodes the answer, which it has not handled yet. */
  lemma AnswerReady(k: Crypto, u: Setup, s: Sys, nonce: Nonce)
    requires Laws(k) && JustOpened(k, u, s)
    ensures Steps(k, Step(k, s, Act(I, AppRekey(nonce))), Asking(nonce)).i
         == Given(Sent(StartRekey(k, s.i, nonce)), SealUnder(k, s.r.session.value.txKey, nonce, PlainBytes(RekeyAck)))
  {
    var i, r := s.i.session.value, s.r.session.value;
    MirroredStart(k, u);
    RenewalWrites(k, s.i, nonce);
    var f := SealUnder(k, i.txKey, nonce, PlainBytes(Rekey));
    OpenSealed(k, i.txKey, nonce, PlainBytes(Rekey));
    AnswerWrites(k, s.r, f, nonce);
    Exchange(k, Step(k, s, Act(I, AppRekey(nonce))), f, SealUnder(k, r.txKey, nonce, PlainBytes(RekeyAck)), nonce);
  }

  lemma MirroredStart(k: Crypto, u: Setup)
    requires Laws(k)
    ensures var i, r := InitiatorSession(k, u.i, u.r), HalfOf(k, u.i, u.r).session;
            i.txKey == r.rxKey && i.rxKey == r.txKey && i.txGen == 0
  {
    HandshakeAgreement(k, u.i, u.r);
  }

  /** The answer is handled: the accounts start afresh under the same sending key. */
  lemma AnswerTaken(k: Crypto, c: Conn, a: bytes, nonce: Nonce)
    requires Laws(k) && c.session.Some? && !c.sock.closed && !c.sock.destroyed && c.rx.pending == [a]
    requires OpenUnder(k, c.session.value.rxKey, a) == Some(PlainBytes(RekeyAck))
    ensures var c' := HandleNext(k, c, true, 0, nonce);
            && c'.session == Some(RekeyRx(k, c.session.value)) && c'.self == c.self
            && c'.tx == c.tx.(rekeying := false, rk := Rk(0, 0, 0))
  {
    PlainRoundTrip(RekeyAck);
    TurnActs(k, c, RekeyAck, 0, nonce);
  }

  lemma {:induction false} WaitedIsSealed(states: seq<Sys>, g: nat, j: nat)
    requires j < |states|
    ensures WaitedUnder(states, g, j) <= SealedUnder(states, g, j)
  {
    if j > 0 {
      WaitedIsSealed(states, g, j - 1);
    }
  }

  /** Before any renewal nothing was sealed under the next key. */
  lemma UnusedNext(k: Crypto, u: Setup, states: seq<Sys>, events: seq<Event>)
    requires Laws(k) && Trace(k, u, states, events)
    ensures var g := Gen(states[|events|].i) + 1;
            SealedUnder(states, g, |events|) == 0 && WaitedUnder(states, g, |events|) == 0
  {
    KeyUse(k, u, states, events, |events|);
    WaitedIsSealed(states, Gen(states[|events|].i) + 1, |events|);
  }

  /** Events other than `send` use no key. */
  lemma {:induction false} QuietMany(k: Crypto, u: Setup, states: seq<Sys>, events: seq<Event>, es: seq<Event>, g: nat)
    returns (states': seq<Sys>, events': seq<Event>)
    requires Trace(k, u, states, events)
    requires forall j :: 0 <= j < |es| ==> Joined(es[j]) && (es[j].Act? ==> !es[j].op.AppSend?)
    ensures Trace(k, u, states', events') && states'[|events'|] == Steps(k, states[|events|], es)
    ensures SealedUnder(states', g, |events'|) == SealedUnder(states, g, |events|)
    ensures WaitedUnder(states', g, |events'|) == WaitedUnder(states, g, |events|)
    decreases |es|
  {
    states', events' := states, events;
    if es != [] {
      states', events' := QuietOne(k, u, states, events, es[0], g);
      states', events' := QuietMany(k, u, states', events', es[1..], g);
    }
  }

  /** A run in which the initiator awaits an answer that it has already decoded, under a key not used yet. */
  lemma AwaitingRun(k: Crypto, u: Setup, nonce: Nonce) returns (states: seq<Sys>, events: seq<Event>)
    requires Laws(k)
    ensures Trace(k, u, states, events) && SealedUnder(states, 1, |events|) == 0 && WaitedUnder(states, 1, |events|) == 0
    ensures var c := states[|events|].i;
            && c.session.Some? && Gen(c) == 1 && c.tx.rekeying && c.tx.num == 0 && c.self == Start(k, u).i.self
            && !c.sock.closed && !c.sock.destroyed && |c.rx.pending| == 1
            && OpenUnder(k, c.session.value.rxKey, c.rx.pending[0]) == Some(PlainBytes(RekeyAck))
  {
    var s := HandshakeCompletes(k, u);
    states, events := RenewalAnswered(k, u, s, nonce);
    AnswerReady(k, u, s, nonce);
    AnswerOpens(k, u, s, nonce);
  }

  /** The run up to there. */
  lemma RenewalAnswered(k: Crypto, u: Setup, s: Sys, nonce: Nonce) returns (states: seq<Sys>, events: seq<Event>)
    requires Laws(k) && JustOpened(k, u, s)
    ensures Trace(k, u, states, events)
    ensures states[|events|] == Steps(k, Step(k, s, Act(I, AppRekey(nonce))), Asking(nonce))
    ensures SealedUnder(states, 1, |events|) == 0 && WaitedUnder(states, 1, |events|) == 0
  {
    states, events := UnusedRun(k, u, s);
    states, events := QuietOne(k, u, states, events, Act(I, AppRekey(nonce)), 1);
    states, events := QuietMany(k, u, states, events, Asking(nonce), 1);
  }

  /** A run to a new session uses no second key. */
  lemma UnusedRun(k: Crypto, u: Setup, s: Sys) returns (states: seq<Sys>, events: seq<Event>)
    requires Laws(k) && JustOpened(k, u, s)
    ensures Trace(k, u, states, events) && states[|events|] == s
    ensures SealedUnder(states, 1, |events|) == 0 && WaitedUnder(states, 1, |events|) == 0
  {
    states, events :| Trace(k, u, states, events) && s == states[|events|];
    MirroredStart(k, u);
    UnusedNext(k, u, states, events);
  }

  lemma QuietOne(k: Crypto, u: Setup, states: seq<Sys>, events: seq<Event>, e: Event, g: nat)
    returns (states': seq<Sys>, events': seq<Event>)
    requires Trace(k, u, states, events) && Joined(e) && (e.Act? ==> !e.op.AppSend?)
    ensures Trace(k, u, states', events') && states'[|events'|] == Step(k, states[|events|], e)
    ensures SealedUnder(states', g, |events'|) == SealedUnder(states, g, |events|)
    ensures WaitedUnder(states', g, |events'|) == WaitedUnder(states, g, |events|)
  {
    if Sends(states[|events|].i, Step(k, states[|events|], e).i) {
      OnlySendSends(k, states[|events|], e);
    }
    states', events' := OneMore(k, u, states, events, e, g);
  }

  /** The initiator that has decoded the answer can read it. */
  lemma AnswerOpens(k: Crypto, u: Setup, s: Sys, nonce: Nonce)
    requires Laws(k) && JustOpened(k, u, s)
    ensures var c := Given(Sent(StartRekey(k, s.i, nonce)), SealUnder(k, s.r.session.value.txKey, nonce, PlainBytes(RekeyAck)));
            && c.session.Some? && Gen(c) == 1 && c.tx.rekeying && c.tx.num == 0 && c.self == Start(k, u).i.self
            && !c.sock.closed && !c.sock.destroyed
            && OpenUnder(k, c.session.value.rxKey, c.rx.pending[0]) == Some(PlainBytes(RekeyAck))
  {
    MirroredStart(k, u);
    RenewalWrites(k, s.i, nonce);
    OpenSealed(k, s.r.session.value.txKey, nonce, PlainBytes(RekeyAck));
  }

  /**
   * The bound is reached: for every `w`, some run seals `w` messages under a key while an answer is
   * awaited and `everyMsgs` more under the same key afterwards.
   */
  lemma PerKeyBoundTight(k: Crypto, u: Setup, w: nat) returns (states: seq<Sys>, events: seq<Event>)
    requires Laws(k) && w + Effective(u.pi).everyMsgs < U64
    ensures Trace(k, u, states, events) && WaitedUnder(states, 1, |events|) == w
    ensures SealedUnder(states, 1, |events|) == w + Effective(u.pi).everyMsgs
  {
    var nonce: Nonce := seq(NONCE_LEN, i => 0);
    states, events := AwaitingRun(k, u, nonce);
    states, events := WaitMany(k, u, states, events, nonce, w);
    var c := states[|events|].i;
    AnswerTaken(k, c, c.rx.pending[0], nonce);
    states, events := QuietOne(k, u, states, events, Act(I, Turn(true, 0, nonce)), 1);
    states, events := CalmMany(k, u, states, events, nonce, 0, Effective(u.pi).everyMsgs);
  }
}
