/**
 * A whole session: two honest ends joined by two byte streams, in every interleaving of what their
 * applications, timers and sockets do with deliveries of arbitrary chunks.
 */
module SessionRun {
  import opened Bytes
  import opened Frame
  import opened Handshake
  import opened SecureConnection
  import opened SessionLink
  import opened SessionPair
  import opened SessionQueue
  import opened StreamCodec

  /** The initiator and the responder; the bytes on the wire are those in their sockets. */
  datatype Sys = Sys(i: Conn, r: Conn)

  datatype Side = I | R

  /** Something happens to one end, or the next `n` bytes (or all there are) reach it. */
  datatype Event = Act(side: Side, op: Op) | Arrive(side: Side, n: nat)

  function Upto(n: nat, s: bytes): (m: nat)
    ensures m <= |s|
  {
    if n <= |s| then n else |s|
  }

  function Step(k: Crypto, s: Sys, e: Event): Sys {
    match e
    case Act(I, op) => s.(i := Apply(k, s.i, op))
    case Act(R, op) => s.(r := Apply(k, s.r, op))
    case Arrive(I, n) =>
      var m := Upto(n, s.r.sock.out);
      Sys(Receive(s.i, s.r.sock.out[..m]), Drained(s.r, m))
    case Arrive(R, n) =>
      var m := Upto(n, s.i.sock.out);
      Sys(Drained(s.i, m), Receive(s.r, s.i.sock.out[..m]))
  }

  /** Bytes come from the other end only. */
  predicate Joined(e: Event) {
    e.Act? ==> !e.op.Chunk?
  }

  /** Who the two ends are, with their options and the times they were created. */
  datatype Setup = Setup(i: Secrets, r: Secrets, pi: Policy, pr: Policy, ti: int, tr: int)

  function Start(k: Crypto, u: Setup): Sys {
    Sys(Opened(k, true, u.i, u.pi, u.ti), Opened(k, false, u.r, u.pr, u.tr))
  }

  /** `states[j + 1]` results from `events[j]` in `states[j]`. */
  ghost predicate Follows(k: Crypto, states: seq<Sys>, events: seq<Event>, j: nat)
    requires j < |events| && |states| == |events| + 1
  {
    Joined(events[j]) && states[j + 1] == Step(k, states[j], events[j])
  }

  /** A run from the two constructors. */
  ghost predicate Trace(k: Crypto, u: Setup, states: seq<Sys>, events: seq<Event>) {
    && |states| == |events| + 1 && states[0] == Start(k, u)
    && forall j :: 0 <= j < |events| ==> Follows(k, states, events, j)
  }

  /** A state some run leads to. */
  ghost predicate Reachable(k: Crypto, u: Setup, s: Sys) {
    exists states, events :: Trace(k, u, states, events) && s == states[|events|]
  }

  // ---- The invariant ----

  ghost function FirstI(k: Crypto, u: Setup): bytes
    requires Laws(k)
  {
    KeyI(k, SharedSecret(k, u.i, u.r))
  }

  ghost function FirstR(k: Crypto, u: Setup): bytes
    requires Laws(k)
  {
    KeyR(k, SharedSecret(k, u.i, u.r))
  }

  /** How far the handshake is, and which of its messages is in flight. */
  ghost predicate Greeting(k: Crypto, u: Setup, s: Sys, fi: Flight, fr: Flight)
    requires Laws(k)
  {
    if s.r.session.Some? then s.i.session.Some? && fi.h == [] && fr.h == []
    else
      && fr.q == []
      && if s.i.session.Some? then
           && s.r.hs.step != 0 && fr.h == []
           && (fi.h == [Message3(k, u.i, u.r)] || (fi == NOTHING && (s.r.sock.destroyed || !Writable(s.i))))
         else
           && fi.q == []
           && if s.r.hs.step != 0 then fi.h == [] && (fr.h == [] || fr.h == [Message2(k, u.i, u.r)])
              else fr.h == [] && (fi.h == [Message1(k, u.i)] || s.r.sock.destroyed)
  }

  ghost predicate Inv(k: Crypto, u: Setup, s: Sys, fi: Flight, fr: Flight)
    requires Laws(k)
  {
    && s.i.self.initiator && s.i.self.secrets == u.i && !s.r.self.initiator && s.r.self.secrets == u.r
    && (s.r.hs.step != 0 ==> s.r.hs.half == Some(HalfOf(k, u.i, u.r)))
    && (s.i.session.Some? ==> s.i.session.value.peerId == k.idOf(u.r.id))
    && (s.r.session.Some? ==> s.r.session.value.peerId == k.idOf(u.i.id))
    && Greeting(k, u, s, fi, fr)
    && Pair(k, FirstI(k, u), FirstR(k, u), s.i, s.r, fi, fr)
  }

  lemma StartInv(k: Crypto, u: Setup)
    requires Laws(k)
    ensures Inv(k, u, Start(k, u), Flight([Message1(k, u.i)], []), NOTHING)
  {
    HandshakeAgreement(k, u.i, u.r);
    var s := Start(k, u);
    var idle := Opened(k, false, u.i, u.pi, u.ti);
    LinkHello(k, FirstI(k, u), Sending(idle), Receiving(s.r), Message1(k, u.i), Sending(s.i));
  }

  // ---- The handshake turns ----

  /** MSG1 is taken and MSG2 written. */
  lemma Turn1Is(k: Crypto, u: Setup, x: Conn, now: int, nonce: Nonce)
    requires Laws(k) && !x.self.initiator && x.self.secrets == u.r && x.session.None? && x.hs.step == 0
    requires x.rx.pending != [] && x.rx.pending[0] == Message1(k, u.i) && !x.sock.closed
    ensures var x', m2 := HandleNext(k, x, true, now, nonce), Message2(k, u.i, u.r);
            && EncodeFrame(m2).Some? && |m2| < U32
            && x' == Shifted(x).(hs := Hs(Some(HalfOf(k, u.i, u.r)), 1),
                                 sock := if Writable(x) then x.sock.(out := x.sock.out + EncodeFrame(m2).value) else x.sock)
  {
    HandshakeAgreement(k, u.i, u.r);
  }

  /** MSG2 is taken, the initiator's session opens and MSG3 is written. */
  lemma Turn2Is(k: Crypto, u: Setup, x: Conn, now: int, nonce: Nonce)
    requires Laws(k) && x.self.initiator && x.self.secrets == u.i && x.session.None?
    requires x.rx.pending != [] && x.rx.pending[0] == Message2(k, u.i, u.r) && !x.sock.closed
    ensures var x', m3 := HandleNext(k, x, true, now, nonce), Message3(k, u.i, u.r);
            && EncodeFrame(m3).Some? && |m3| < U32
            && x' == Shifted(x).(session := Some(InitiatorSession(k, u.i, u.r)),
                                 sock := if Writable(x) then x.sock.(out := x.sock.out + EncodeFrame(m3).value) else x.sock)
  {
    HandshakeAgreement(k, u.i, u.r);
  }

  /** MSG3 is taken and the responder's session opens. */
  lemma Turn3Is(k: Crypto, u: Setup, x: Conn, now: int, nonce: Nonce)
    requires Laws(k) && !x.self.initiator && x.self.secrets == u.r && x.session.None? && x.hs.step != 0
    requires x.hs.half == Some(HalfOf(k, u.i, u.r))
    requires x.rx.pending != [] && x.rx.pending[0] == Message3(k, u.i, u.r) && !x.sock.closed
    ensures HandleNext(k, x, true, now, nonce) == Shifted(x).(session := Some(HalfOf(k, u.i, u.r).session))
  {
    HandshakeAgreement(k, u.i, u.r);
  }

  /** A handshake message is taken from an otherwise empty direction and another one written, if possible. */
  lemma PairReplies(k: Crypto, kx: bytes, ky: bytes, x: Conn, y: Conn, m: bytes, m': bytes, x': Conn)
    returns (fx': Flight)
    requires Pair(k, kx, ky, x, y, NOTHING, Flight([m], [])) && x.rx.pending != [] && |m'| < U32
    requires x'.sock == if Writable(x) then x.sock.(out := x.sock.out + EncodeFrame(m').value) else x.sock
    requires x'.tx == x.tx && x'.rx == Shifted(x).rx && Keyed(k, kx, ky, x')
    requires Sending(x').txGen == Sending(x).txGen && Receiving(x').rxGen == Receiving(x).rxGen
    ensures fx' == if Writable(x) && !y.sock.destroyed then Flight([m'], []) else NOTHING
    ensures Pair(k, kx, ky, x', y, fx', NOTHING)
  {
    fx' := NOTHING;
    LinkTakesHello(k, ky, Sending(y), Receiving(x), m, []);
    assert Receiving(x') == Receiving(x).(pending := x.rx.pending[1..]);
    if Writable(x) && !y.sock.destroyed {
      fx' := Flight([m'], []);
      LinkHello(k, kx, Sending(x), Receiving(y), m', Sending(x'));
    }
  }

  lemma Turn1Keeps(k: Crypto, u: Setup, s: Sys, fi: Flight, fr: Flight, now: int, nonce: Nonce) returns (fr': Flight)
    requires Laws(k) && Inv(k, u, s, fi, fr) && s.r.session.None? && s.r.hs.step == 0 && s.r.rx.pending != []
    ensures Inv(k, u, s.(r := HandleNext(k, s.r, true, now, nonce)), NOTHING, fr')
    ensures !HandleNext(k, s.r, true, now, nonce).sock.destroyed
  {
    var kx, ky, m1 := FirstI(k, u), FirstR(k, u), Message1(k, u.i);
    PendingIsOpen(k, ky, kx, s.r, s.i, fr, fi);
    LinkTakesHello(k, kx, Sending(s.i), Receiving(s.r), m1, []);
    Turn1Is(k, u, s.r, now, nonce);
    fr' := PairReplies(k, ky, kx, s.r, s.i, m1, Message2(k, u.i, u.r), HandleNext(k, s.r, true, now, nonce));
  }

  lemma Turn2Keeps(k: Crypto, u: Setup, s: Sys, fi: Flight, fr: Flight, now: int, nonce: Nonce) returns (fi': Flight)
    requires Laws(k) && Inv(k, u, s, fi, fr) && s.i.session.None? && s.i.rx.pending != []
    ensures Inv(k, u, s.(i := HandleNext(k, s.i, true, now, nonce)), fi', NOTHING)
    ensures !HandleNext(k, s.i, true, now, nonce).sock.destroyed
  {
    var kx, ky, m2 := FirstI(k, u), FirstR(k, u), Message2(k, u.i, u.r);
    PendingIsOpen(k, kx, ky, s.i, s.r, fi, fr);
    LinkTakesHello(k, ky, Sending(s.r), Receiving(s.i), m2, []);
    Turn2Is(k, u, s.i, now, nonce);
    fi' := PairReplies(k, kx, ky, s.i, s.r, m2, Message3(k, u.i, u.r), HandleNext(k, s.i, true, now, nonce));
  }

  lemma Turn3Keeps(k: Crypto, u: Setup, s: Sys, fi: Flight, fr: Flight, now: int, nonce: Nonce)
    requires Laws(k) && Inv(k, u, s, fi, fr) && s.r.session.None? && s.r.hs.step != 0 && s.r.rx.pending != []
    ensures Inv(k, u, s.(r := HandleNext(k, s.r, true, now, nonce)), Flight([], fi.q), fr)
    ensures !HandleNext(k, s.r, true, now, nonce).sock.destroyed
  {
    var kx, ky, m3 := FirstI(k, u), FirstR(k, u), Message3(k, u.i, u.r);
    PendingIsOpen(k, ky, kx, s.r, s.i, fr, fi);
    LinkTakesHello(k, kx, Sending(s.i), Receiving(s.r), m3, fi.q);
    Turn3Is(k, u, s.r, now, nonce);
    var r' := HandleNext(k, s.r, true, now, nonce);
    assert Sending(r') == Sending(s.r);
    assert Receiving(r') == Receiving(s.r).(pending := s.r.rx.pending[1..]);
  }

  // ---- Every step keeps the invariant ----

  lemma GreetingAfter(k: Crypto, u: Setup, s: Sys, fi: Flight, fr: Flight, i': Conn, fi': Flight, fr': Flight)
    requires Laws(k) && Inv(k, u, s, fi, fr) && FlightsStep(s.i, fi, fr, i', fi', fr')
    requires Pair(k, FirstI(k, u), FirstR(k, u), i', s.r, fi', fr')
    ensures Inv(k, u, s.(i := i'), fi', fr')
  {}

  lemma ActIKeeps(k: Crypto, u: Setup, s: Sys, fi: Flight, fr: Flight, op: Op) returns (fi': Flight, fr': Flight)
    requires Laws(k) && Inv(k, u, s, fi, fr) && !op.Chunk?
    ensures Inv(k, u, s.(i := Apply(k, s.i, op)), fi', fr')
  {
    if op.Turn? && op.allowed && s.i.rx.pending != [] && s.i.session.None? {
      fi' := Turn2Keeps(k, u, s, fi, fr, op.now, op.nonce);
      fr' := NOTHING;
    } else {
      fi', fr' := ActKeeps(k, FirstI(k, u), FirstR(k, u), s.i, s.r, fi, fr, op);
      GreetingAfter(k, u, s, fi, fr, Apply(k, s.i, op), fi', fr');
    }
  }

  lemma ActRKeeps(k: Crypto, u: Setup, s: Sys, fi: Flight, fr: Flight, op: Op) returns (fi': Flight, fr': Flight)
    requires Laws(k) && Inv(k, u, s, fi, fr) && !op.Chunk?
    ensures Inv(k, u, s.(r := Apply(k, s.r, op)), fi', fr')
  {
    if op.Turn? && op.allowed && s.r.rx.pending != [] && s.r.session.None? {
      if s.r.hs.step == 0 {
        fr' := Turn1Keeps(k, u, s, fi, fr, op.now, op.nonce);
        fi' := NOTHING;
      } else {
        Turn3Keeps(k, u, s, fi, fr, op.now, op.nonce);
        fi', fr' := Flight([], fi.q), fr;
      }
    } else {
      fr', fi' := ActKeeps(k, FirstR(k, u), FirstI(k, u), s.r, s.i, fr, fi, op);
    }
  }

  lemma ArriveKeeps(k: Crypto, u: Setup, s: Sys, fi: Flight, fr: Flight, side: Side, n: nat)
    returns (fi': Flight, fr': Flight)
    requires Laws(k) && Inv(k, u, s, fi, fr)
    ensures Inv(k, u, Step(k, s, Arrive(side, n)), fi', fr')
  {
    fi', fr' := fi, fr;
    var m;
    match side
    case I => fr', m := ChunkKeeps(k, FirstI(k, u), FirstR(k, u), s.i, s.r, fi, fr, Upto(n, s.r.sock.out));
    case R => fi', m := ChunkKeeps(k, FirstR(k, u), FirstI(k, u), s.r, s.i, fr, fi, Upto(n, s.i.sock.out));
  }

  lemma StepKeepsInv(k: Crypto, u: Setup, s: Sys, fi: Flight, fr: Flight, e: Event) returns (fi': Flight, fr': Flight)
    requires Laws(k) && Inv(k, u, s, fi, fr) && Joined(e)
    ensures Inv(k, u, Step(k, s, e), fi', fr')
  {
    match e
    case Act(I, op) => fi', fr' := ActIKeeps(k, u, s, fi, fr, op);
    case Act(R, op) => fi', fr' := ActRKeeps(k, u, s, fi, fr, op);
    case Arrive(side, n) => fi', fr' := ArriveKeeps(k, u, s, fi, fr, side, n);
  }

  lemma {:induction false} TraceInv(k: Crypto, u: Setup, states: seq<Sys>, events: seq<Event>, j: nat)
    returns (fi: Flight, fr: Flight)
    requires Laws(k) && Trace(k, u, states, events) && j <= |events|
    ensures Inv(k, u, states[j], fi, fr)
  {
    if j == 0 {
      StartInv(k, u);
      fi, fr := Flight([Message1(k, u.i)], []), NOTHING;
    } else {
      fi, fr := TraceInv(k, u, states, events, j - 1);
      assert Follows(k, states, events, j - 1);
      fi, fr := StepKeepsInv(k, u, states[j - 1], fi, fr, events[j - 1]);
    }
  }

  lemma ReachableInv(k: Crypto, u: Setup, s: Sys) returns (fi: Flight, fr: Flight)
    requires Laws(k) && Reachable(k, u, s)
    ensures Inv(k, u, s, fi, fr)
  {
    var states, events :| Trace(k, u, states, events) && s == states[|events|];
    fi, fr := TraceInv(k, u, states, events, |events|);
  }

  lemma StartReachable(k: Crypto, u: Setup)
    ensures Reachable(k, u, Start(k, u))
  {
    assert Trace(k, u, [Start(k, u)], []);
  }

  lemma ReachableStep(k: Crypto, u: Setup, s: Sys, e: Event)
    requires Reachable(k, u, s) && Joined(e)
    ensures Reachable(k, u, Step(k, s, e))
  {
    var states, events :| Trace(k, u, states, events) && s == states[|events|];
    var states', events' := states + [Step(k, s, e)], events + [e];
    forall j | 0 <= j < |events'|
      ensures Follows(k, states', events', j)
    {
      if j < |events| {
        assert Follows(k, states, events, j);
      }
    }
    assert Trace(k, u, states', events');
    assert Step(k, s, e) == states'[|events'|];
  }
}
