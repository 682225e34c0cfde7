/** Two joined ends: what every step of one of them keeps true of both directions and of key renewal. */
module SessionPair {
  import opened Bytes
  import opened FixedWindow
  import opened Frame
  import opened Handshake
  import opened SecureConnection
  import opened SessionLink
  import opened SessionQueue
  import opened StreamCodec

  /** What is in flight in one direction: a handshake message, if any, then sealed messages. */
  datatype Flight = Flight(h: seq<bytes>, q: seq<Item>)

  const NOTHING: Flight := Flight([], [])

  /**
   * The renewals `x` is waiting for: its REKEY on the way, or the answer on its way back. There is one
   * exactly when its flag is set, as long as both ends can write.
   */
  ghost predicate Balance(x: Conn, y: Conn, qx: seq<Item>, qy: seq<Item>) {
    var awaited := Rekeys(qx) + Acks(qy);
    && awaited <= (if x.tx.rekeying then 1 else 0)
    && (Writable(x) && Writable(y) ==> awaited == if x.tx.rekeying then 1 else 0)
  }

  /** The keys of `c` are those of its generations. */
  ghost predicate Keyed(k: Crypto, tx: bytes, rx: bytes, c: Conn) {
    c.session.Some? ==>
      && c.session.value.txKey == KeyAt(k, tx, c.session.value.txGen)
      && c.session.value.rxKey == KeyAt(k, rx, c.session.value.rxGen)
  }

  /** `kx` and `ky` are the first keys of the two directions. */
  ghost predicate Pair(k: Crypto, kx: bytes, ky: bytes, x: Conn, y: Conn, fx: Flight, fy: Flight) {
    && Link(k, kx, Sending(x), Receiving(y), fx.h, fx.q)
    && Link(k, ky, Sending(y), Receiving(x), fy.h, fy.q)
    && Balance(x, y, fx.q, fy.q) && Balance(y, x, fy.q, fx.q)
    && Keyed(k, kx, ky, x) && Keyed(k, ky, kx, y)
  }

  /** What no step but a handshake turn changes; an end never reads or writes again. */
  ghost predicate SameEnd(x: Conn, x': Conn) {
    && x'.self == x.self && x'.hs == x.hs
    && x'.session.Some? == x.session.Some?
    && (x.session.Some? ==> x'.session.value.peerId == x.session.value.peerId)
    && (Writable(x') ==> Writable(x)) && (x.sock.destroyed ==> x'.sock.destroyed)
  }

  // ---- Emitting ----

  function Advanced(k: Crypto, s: Session, p: Plain): Session {
    if p.Rekey? || p.RekeyAck? then RekeyTx(k, s) else s
  }

  /** The outcome `w` of emitting `it`: it was sealed under the current generation and, if possible, written. */
  ghost predicate Emitted(k: Crypto, base: bytes, c: Conn, it: Item, w: Result)
    requires c.session.Some?
  {
    var f := Sealed(k, base, c.session.value.txGen, it);
    && (w.Threw? ==> it.plain.Data? && w.conn == c)
    && (w.Done? ==>
          && (Writable(c) ==> |f| < U32)
          && w.conn == c.(sock := c.sock.(out := if Writable(c) then c.sock.out + EncodeFrame(f).value else c.sock.out),
                          session := Some(Advanced(k, c.session.value, it.plain))))
  }

  lemma EmitIs(k: Crypto, base: bytes, c: Conn, nonce: Nonce, p: Plain)
    requires Laws(k) && c.session.Some?
    requires c.session.value.txKey == KeyAt(k, base, c.session.value.txGen)
    ensures Emitted(k, base, c, Item(nonce, p), Emit(k, c, nonce, p))
  {
    OpenSealed(k, c.session.value.txKey, nonce, PlainBytes(p));
    PlainRoundTrip(p);
  }

  /** Emitting anything but an answer keeps the count of awaited renewals. */
  lemma BalanceEmits(x: Conn, y: Conn, qx: seq<Item>, qy: seq<Item>, it: Item, x': Conn)
    requires Balance(x, y, qx, qy) && Balance(y, x, qy, qx)
    requires !it.plain.RekeyAck? && (it.plain.Rekey? ==> !x.tx.rekeying)
    requires x'.tx.rekeying == (x.tx.rekeying || it.plain.Rekey?) && (Writable(x') ==> Writable(x))
    requires y.sock.destroyed ==> y.sock.closed
    ensures var qx' := Pushed(Sending(x), Receiving(y), qx, it);
            Balance(x', y, qx', qy) && Balance(y, x', qy, qx')
  {
    CountsAppend(qx, it);
  }

  /** One end emits one message other than an answer. */
  lemma PairEmits(k: Crypto, kx: bytes, ky: bytes, x: Conn, y: Conn, fx: Flight, fy: Flight, it: Item, x': Conn)
    returns (fx': Flight)
    requires Pair(k, kx, ky, x, y, fx, fy)
    requires Emits(k, kx, Sending(x), it, Sending(x')) && Receiving(x') == Receiving(x) && Keyed(k, kx, ky, x')
    requires !it.plain.RekeyAck? && (it.plain.Rekey? ==> !x.tx.rekeying)
    requires x'.tx.rekeying == (x.tx.rekeying || it.plain.Rekey?)
    ensures fx' == Flight(fx.h, Pushed(Sending(x), Receiving(y), fx.q, it))
    ensures Pair(k, kx, ky, x', y, fx', fy)
  {
    LinkEmits(k, kx, Sending(x), Receiving(y), fx.h, fx.q, it, Sending(x'));
    BalanceEmits(x, y, fx.q, fy.q, it, x');
    fx' := Flight(fx.h, Pushed(Sending(x), Receiving(y), fx.q, it));
  }

  lemma StartRekeyIs(k: Crypto, kx: bytes, ky: bytes, x: Conn, nonce: Nonce)
    requires Laws(k) && Keyed(k, kx, ky, x) && x.session.Some? && !x.tx.rekeying
    ensures var x' := StartRekey(k, x, nonce);
            && Emits(k, kx, Sending(x), Item(nonce, Rekey), Sending(x'))
            && Receiving(x') == Receiving(x) && Keyed(k, kx, ky, x') && SameEnd(x, x')
            && x'.tx.rekeying && Writable(x') == Writable(x) && x'.sock.destroyed == x.sock.destroyed
  {
    EmitIs(k, kx, x.(tx := x.tx.(rekeying := true)), nonce, Rekey);
  }

  /** `rekey` puts one REKEY in flight and sets the flag, or does nothing. */
  lemma StartRekeyKeeps(k: Crypto, kx: bytes, ky: bytes, x: Conn, y: Conn, fx: Flight, fy: Flight, nonce: Nonce)
    returns (fx': Flight)
    requires Laws(k) && Pair(k, kx, ky, x, y, fx, fy)
    ensures Pair(k, kx, ky, StartRekey(k, x, nonce), y, fx', fy)
    ensures SameEnd(x, StartRekey(k, x, nonce)) && fx'.h == fx.h
    ensures x.session.None? || !Writable(x) ==> fx' == fx
    ensures fx'.q == if x.session.Some? && !x.tx.rekeying
                     then Pushed(Sending(x), Receiving(y), fx.q, Item(nonce, Rekey)) else fx.q
    ensures StartRekey(k, x, nonce).tx == x.tx.(rekeying := x.tx.rekeying || x.session.Some?)
  {
    fx' := fx;
    if x.session.Some? && !x.tx.rekeying {
      StartRekeyIs(k, kx, ky, x, nonce);
      fx' := PairEmits(k, kx, ky, x, y, fx, fy, Item(nonce, Rekey), StartRekey(k, x, nonce));
    }
  }

  /** `_maybeAutoRekey` */
  lemma AutoRekeyKeeps(k: Crypto, kx: bytes, ky: bytes, x: Conn, y: Conn, fx: Flight, fy: Flight, now: int, nonce: Nonce)
    returns (fx': Flight)
    requires Laws(k) && Pair(k, kx, ky, x, y, fx, fy)
    ensures Pair(k, kx, ky, MaybeAutoRekey(k, x, now, nonce), y, fx', fy)
    ensures SameEnd(x, MaybeAutoRekey(k, x, now, nonce)) && fx'.h == fx.h
    ensures x.session.None? || !Writable(x) ==> fx' == fx
  {
    fx' := fx;
    if MaybeAutoRekey(k, x, now, nonce) != x {
      fx' := StartRekeyKeeps(k, kx, ky, x, y, fx, fy, nonce);
    }
  }

  // ---- Steps that write nothing ----

  /** `x'` is `x` without a byte written: it may have stopped or used up a number. */
  ghost predicate Quiet(x: Conn, x': Conn) {
    && x'.sock.out == x.sock.out && x'.tx.sent == x.tx.sent && x'.tx.num >= x.tx.num
    && x'.session == x.session && x'.tx.rekeying == x.tx.rekeying
    && (Writable(x') ==> Writable(x))
  }

  lemma PairQuiet(k: Crypto, kx: bytes, ky: bytes, x: Conn, y: Conn, fx: Flight, fy: Flight, x': Conn)
    requires Pair(k, kx, ky, x, y, fx, fy) && Quiet(x, x') && Receiving(x') == Receiving(x)
    ensures Pair(k, kx, ky, x', y, fx, fy)
  {
    LinkQuiet(k, kx, Sending(x), Receiving(y), fx.h, fx.q, Sending(x'));
  }

  /** One end gives up: nothing in flight to it matters any more. */
  lemma PairDies(k: Crypto, kx: bytes, ky: bytes, x: Conn, y: Conn, fx: Flight, fy: Flight, x': Conn)
    requires Pair(k, kx, ky, x, y, fx, fy) && Quiet(x, x')
    requires x'.sock.destroyed && x'.sock.closed && x'.rx.pending == [] && x'.rx.got == x.rx.got
    ensures Pair(k, kx, ky, x', y, fx, NOTHING)
  {
    LinkQuiet(k, kx, Sending(x), Receiving(y), fx.h, fx.q, Sending(x'));
    LinkDies(k, ky, Sending(y), Receiving(x), fy.h, fy.q, Receiving(x'));
  }

  // ---- `send` and `close` ----

  /** A DATA message went out through `w` and was accounted for. */
  lemma AccountedIs(k: Crypto, kx: bytes, ky: bytes, x: Conn, it: Item, w: Result)
    requires Keyed(k, kx, ky, x) && x.session.Some? && it.plain.Data? && it.plain.num == x.tx.num + 1
    requires Emitted(k, kx, Numbered(x), it, w) && w.Done?
    ensures var x' := w.conn.(tx := Account(w.conn.tx, it.plain.body));
            && Emits(k, kx, Sending(x), it, Sending(x'))
            && Receiving(x') == Receiving(x) && SameEnd(x, x')
            && Keyed(k, kx, ky, x') && x'.tx.rekeying == x.tx.rekeying
  {}

  /** A `send` that throws has written nothing. */
  lemma SendDataThrows(k: Crypto, kx: bytes, ky: bytes, x: Conn, body: bytes, nonce: Nonce)
    requires Laws(k) && Keyed(k, kx, ky, x) && SendData(k, x, body, nonce).Threw?
    ensures var x' := SendData(k, x, body, nonce).conn;
            Receiving(x') == Receiving(x) && SameEnd(x, x') && Quiet(x, x')
  {
    if x.session.Some? && x.tx.num + 1 < U64 {
      EmitIs(k, kx, Numbered(x), nonce, Data(x.tx.num + 1, body));
    }
  }

  /** A `send` that returns has emitted one DATA message, `it`, and accounted for it. */
  lemma SendDataIs(k: Crypto, x: Conn, body: bytes, nonce: Nonce) returns (it: Item, w: Result)
    requires SendData(k, x, body, nonce).Done?
    ensures x.session.Some? && it.nonce == nonce && w == Emit(k, Numbered(x), it.nonce, it.plain)
    ensures it.plain.Data? && it.plain.num == x.tx.num + 1 && it.plain.body == body
    ensures w.Done? && SendData(k, x, body, nonce) == Done(w.conn.(tx := Account(w.conn.tx, body)))
  {
    it := Item(nonce, Data(Numbered(x).tx.num, body));
    w := Emit(k, Numbered(x), nonce, it.plain);
  }

  lemma SendKeeps(k: Crypto, kx: bytes, ky: bytes, x: Conn, y: Conn, fx: Flight, fy: Flight,
                  body: bytes, now: int, nonce: Nonce, nonce2: Nonce)
    returns (fx': Flight)
    requires Laws(k) && Pair(k, kx, ky, x, y, fx, fy)
    ensures Pair(k, kx, ky, Send(k, x, body, now, nonce, nonce2).conn, y, fx', fy)
    ensures SameEnd(x, Send(k, x, body, now, nonce, nonce2).conn) && fx'.h == fx.h
    ensures x.session.None? || !Writable(x) ==> fx' == fx
  {
    var r := SendData(k, x, body, nonce);
    if r.Threw? {
      SendDataThrows(k, kx, ky, x, body, nonce);
      PairQuiet(k, kx, ky, x, y, fx, fy, r.conn);
      fx' := fx;
    } else {
      var it, w := SendDataIs(k, x, body, nonce);
      EmitIs(k, kx, Numbered(x), it.nonce, it.plain);
      AccountedIs(k, kx, ky, x, it, w);
      var f1 := PairEmits(k, kx, ky, x, y, fx, fy, it, r.conn);
      fx' := AutoRekeyKeeps(k, kx, ky, r.conn, y, f1, fy, now, nonce2);
    }
  }

  lemma ShutIs(k: Crypto, kx: bytes, ky: bytes, x: Conn, nonce: Nonce)
    requires Laws(k) && Keyed(k, kx, ky, x)
    ensures var x' := Shut(k, x, nonce);
            && Receiving(x') == Receiving(x) && SameEnd(x, x') && !Writable(x') && x'.tx.rekeying == x.tx.rekeying
            && (x.session.None? || x.sock.closed ==> Quiet(x, x'))
            && (x.session.Some? && !x.sock.closed ==>
                  Emits(k, kx, Sending(x), Item(nonce, Close), Sending(x')) && Keyed(k, kx, ky, x'))
  {
    if x.session.Some? {
      EmitIs(k, kx, x, nonce, Close);
    }
  }

  lemma ShutKeeps(k: Crypto, kx: bytes, ky: bytes, x: Conn, y: Conn, fx: Flight, fy: Flight, nonce: Nonce)
    returns (fx': Flight)
    requires Laws(k) && Pair(k, kx, ky, x, y, fx, fy)
    ensures Pair(k, kx, ky, Shut(k, x, nonce), y, fx', fy)
    ensures SameEnd(x, Shut(k, x, nonce)) && fx'.h == fx.h
    ensures x.session.None? || !Writable(x) ==> fx' == fx
  {
    ShutIs(k, kx, ky, x, nonce);
    if x.session.Some? && !x.sock.closed {
      fx' := PairEmits(k, kx, ky, x, y, fx, fy, Item(nonce, Close), Shut(k, x, nonce));
    } else {
      PairQuiet(k, kx, ky, x, y, fx, fy, Shut(k, x, nonce));
      fx' := fx;
    }
  }

  // ---- Handling a sealed message ----

  /** The frame whose turn it is opens and reads as `p`, and is not stale. */
  ghost predicate Reads(k: Crypto, x: Conn, p: Plain) {
    && x.session.Some? && x.rx.pending != [] && !x.sock.closed
    && OpenUnder(k, x.session.value.rxKey, x.rx.pending[0]) == Some(PlainBytes(p))
    && ReadPlain(PlainBytes(p)) == Some(p)
    && (p.Data? && x.rx.last.Some? ==> x.rx.last.value < p.num)
    && (p.Close? ==> x.rx.pending[1..] == [])
  }

  /** It reads as the oldest message in flight. */
  lemma TurnReads(k: Crypto, kx: bytes, ky: bytes, x: Conn, y: Conn, fx: Flight, fy: Flight)
    requires Laws(k) && Pair(k, kx, ky, x, y, fx, fy)
    requires x.session.Some? && x.rx.pending != [] && fy.h == []
    ensures fy.q != [] && Reads(k, x, fy.q[0].plain)
    ensures Link(k, ky, Sending(y), Taken(Receiving(x), fy.q[0].plain), [], fy.q[1..])
  {
    LinkTurn(k, ky, Sending(y), Receiving(x), fy.q);
    var it := fy.q[0];
    OpenSealed(k, x.session.value.rxKey, it.nonce, PlainBytes(it.plain));
    PlainRoundTrip(it.plain);
  }

  /** The count of awaited renewals when a message other than REKEY and its answer is handled. */
  lemma BalanceTurn(x: Conn, y: Conn, qx: seq<Item>, qy: seq<Item>, x': Conn)
    requires Balance(x, y, qx, qy) && Balance(y, x, qy, qx) && qy != []
    requires qy[0].plain.Data? || qy[0].plain.Close?
    requires x'.tx.rekeying == x.tx.rekeying && (Writable(x') ==> Writable(x))
    ensures Balance(x', y, qx, qy[1..]) && Balance(y, x', qy[1..], qx)
  {}

  /** A REKEY is taken and its answer emitted. */
  lemma BalanceRekey(x: Conn, y: Conn, qx: seq<Item>, qy: seq<Item>, it: Item, x': Conn)
    requires Balance(x, y, qx, qy) && Balance(y, x, qy, qx) && qy != []
    requires qy[0].plain.Rekey? && it.plain.RekeyAck?
    requires x'.tx.rekeying == x.tx.rekeying && (Writable(x') ==> Writable(x))
    requires y.sock.destroyed ==> y.sock.closed
    ensures var qx' := Pushed(Sending(x), Receiving(y), qx, it);
            Balance(x', y, qx', qy[1..]) && Balance(y, x', qy[1..], qx')
  {
    CountsAppend(qx, it);
  }

  /** The answer to a REKEY is taken: it was awaited, and nothing is any more. */
  lemma BalanceAck(x: Conn, y: Conn, qx: seq<Item>, qy: seq<Item>, x': Conn)
    requires Balance(x, y, qx, qy) && Balance(y, x, qy, qx) && qy != []
    requires qy[0].plain.RekeyAck?
    requires !x'.tx.rekeying && (Writable(x') ==> Writable(x))
    ensures x.tx.rekeying && Rekeys(qx) == 0
    ensures Balance(x', y, qx, qy[1..]) && Balance(y, x', qy[1..], qx)
  {}

  /** Whether handling the oldest message in flight ends in the rate limit of the session. */
  predicate OverRate(x: Conn, now: int) {
    Bump(Some(x.rx.window), now, 1000).count > x.self.policy.maxPerSecond
  }

  lemma ToldOne(got: seq<Message>, m: Message)
    ensures Told(got + [m]) == Told(got) + [m.body]
  {}

  /** What handling a message does to the two directions, keys and flags of its receiver. */
  ghost predicate Takes(x: Conn, p: Plain, x': Conn)
    requires x.rx.pending != []
  {
    && Receiving(x') == Taken(Receiving(x), p) && SameEnd(x, x') && !x'.sock.destroyed
    && (Writable(x') ==> Writable(x))
  }

  /** What a turn comes to once its frame is read. */
  function Acted(k: Crypto, x: Conn, p: Plain, now: int, nonce: Nonce): Conn
    requires x.session.Some? && x.rx.pending != []
  {
    Settled(HandlePlain(k, Shifted(x), p, now, nonce))
  }

  lemma TurnActs(k: Crypto, x: Conn, p: Plain, now: int, nonce: Nonce)
    requires Reads(k, x, p)
    ensures HandleNext(k, x, true, now, nonce) == Acted(k, x, p, now, nonce)
  {}

  lemma DataIs(k: Crypto, x: Conn, p: Plain, now: int, nonce: Nonce)
    requires Reads(k, x, p) && p.Data? && !x.sock.destroyed
    ensures var x' := Acted(k, x, p, now, nonce);
            && SameEnd(x, x') && Quiet(x, x') && x'.sock.destroyed == OverRate(x, now)
            && (x'.sock.destroyed ==> x'.sock.closed && x'.rx.pending == [] && x'.rx.got == x.rx.got)
            && (!x'.sock.destroyed ==> Takes(x, p, x') && Sending(x') == Sending(x))
  {
    ToldOne(x.rx.got, Message(p.num, p.body, now));
  }

  /** A REKEY was taken and answered through `w`. */
  lemma AnsweredIs(k: Crypto, kx: bytes, ky: bytes, x: Conn, it: Item, w: Result)
    requires Keyed(k, kx, ky, x) && x.session.Some? && x.rx.pending != [] && !x.sock.closed && !x.sock.destroyed
    requires it.plain.RekeyAck? && w.Done?
    requires Emitted(k, kx, Shifted(x).(session := Some(RekeyRx(k, x.session.value))), it, w)
    ensures var x' := Settled(w);
            && Takes(x, Rekey, x') && Keyed(k, kx, ky, x') && x'.tx.rekeying == x.tx.rekeying
            && Emits(k, kx, Sending(x), it, Sending(x'))
  {}

  lemma RekeyIs(k: Crypto, kx: bytes, ky: bytes, x: Conn, now: int, nonce: Nonce)
    requires Laws(k) && Reads(k, x, Rekey) && Keyed(k, kx, ky, x) && !x.sock.destroyed
    ensures var x' := Acted(k, x, Rekey, now, nonce);
            && Takes(x, Rekey, x') && Keyed(k, kx, ky, x') && x'.tx.rekeying == x.tx.rekeying
            && Emits(k, kx, Sending(x), Item(nonce, RekeyAck), Sending(x'))
  {
    var x1 := Shifted(x).(session := Some(RekeyRx(k, x.session.value)));
    EmitIs(k, kx, x1, nonce, RekeyAck);
    AnsweredIs(k, kx, ky, x, Item(nonce, RekeyAck), Emit(k, x1, nonce, RekeyAck));
  }

  lemma AckIs(k: Crypto, kx: bytes, ky: bytes, x: Conn, now: int, nonce: Nonce)
    requires Reads(k, x, RekeyAck) && Keyed(k, kx, ky, x) && !x.sock.destroyed
    ensures var x' := Acted(k, x, RekeyAck, now, nonce);
            && Takes(x, RekeyAck, x') && Keyed(k, kx, ky, x') && !x'.tx.rekeying && Sending(x') == Sending(x)
  {}

  lemma CloseIs(k: Crypto, x: Conn, now: int, nonce: Nonce)
    requires Reads(k, x, Close) && !x.sock.destroyed
    ensures var x' := Acted(k, x, Close, now, nonce);
            Takes(x, Close, x') && Quiet(x, x') && !Writable(x')
  {}

  /** A message other than a REKEY is taken. */
  lemma PairTakes(k: Crypto, kx: bytes, ky: bytes, x: Conn, y: Conn, fx: Flight, fy: Flight, x': Conn)
    requires Pair(k, kx, ky, x, y, fx, fy) && x.rx.pending != [] && fy.q != [] && Takes(x, fy.q[0].plain, x')
    requires Link(k, ky, Sending(y), Taken(Receiving(x), fy.q[0].plain), [], fy.q[1..])
    requires Sending(x') == Sending(x) || Quiet(x, x')
    requires Balance(x', y, fx.q, fy.q[1..]) && Balance(y, x', fy.q[1..], fx.q) && Keyed(k, kx, ky, x')
    ensures Pair(k, kx, ky, x', y, fx, Flight([], fy.q[1..]))
  {
    LinkQuiet(k, kx, Sending(x), Receiving(y), fx.h, fx.q, Sending(x'));
  }

  /** A REKEY is taken and answered. */
  lemma PairAnswers(k: Crypto, kx: bytes, ky: bytes, x: Conn, y: Conn, fx: Flight, fy: Flight, it: Item, x': Conn)
    returns (fx': Flight)
    requires Pair(k, kx, ky, x, y, fx, fy) && x.rx.pending != [] && fy.q != [] && fy.q[0].plain.Rekey?
    requires Takes(x, Rekey, x') && Link(k, ky, Sending(y), Taken(Receiving(x), Rekey), [], fy.q[1..])
    requires it.plain.RekeyAck? && Emits(k, kx, Sending(x), it, Sending(x'))
    requires x'.tx.rekeying == x.tx.rekeying && Keyed(k, kx, ky, x')
    ensures fx'.h == fx.h && (!Writable(x) ==> fx' == fx) && Pair(k, kx, ky, x', y, fx', Flight([], fy.q[1..]))
  {
    LinkEmits(k, kx, Sending(x), Receiving(y), fx.h, fx.q, it, Sending(x'));
    BalanceRekey(x, y, fx.q, fy.q, it, x');
    fx' := Flight(fx.h, Pushed(Sending(x), Receiving(y), fx.q, it));
  }

  /**
   * Every sealed frame whose turn comes opens, passes the sequence check and is acted on; only the rate
   * limit of the session can end it here.
   */
  lemma SealedTurn(k: Crypto, kx: bytes, ky: bytes, x: Conn, y: Conn, fx: Flight, fy: Flight, now: int, nonce: Nonce)
    returns (fx': Flight, fy': Flight)
    requires Laws(k) && Pair(k, kx, ky, x, y, fx, fy)
    requires x.session.Some? && x.rx.pending != [] && fy.h == []
    ensures fy.q != []
    ensures var x' := HandleNext(k, x, true, now, nonce);
            && Pair(k, kx, ky, x', y, fx', fy') && fx'.h == fx.h && (!Writable(x) ==> fx' == fx)
            && fy'.h == [] && SameEnd(x, x')
            && x'.sock.destroyed == (fy.q[0].plain.Data? && OverRate(x, now))
  {
    TurnReads(k, kx, ky, x, y, fx, fy);
    TurnActs(k, x, fy.q[0].plain, now, nonce);
    var x' := HandleNext(k, x, true, now, nonce);
    fx', fy' := fx, Flight([], fy.q[1..]);
    match fy.q[0].plain
    case Data(_, _) =>
      DataIs(k, x, fy.q[0].plain, now, nonce);
      if x'.sock.destroyed {
        PairDies(k, kx, ky, x, y, fx, fy, x');
        fy' := NOTHING;
      } else {
        BalanceTurn(x, y, fx.q, fy.q, x');
        PairTakes(k, kx, ky, x, y, fx, fy, x');
      }
    case Rekey =>
      RekeyIs(k, kx, ky, x, now, nonce);
      fx' := PairAnswers(k, kx, ky, x, y, fx, fy, Item(nonce, RekeyAck), x');
    case RekeyAck =>
      AckIs(k, kx, ky, x, now, nonce);
      BalanceAck(x, y, fx.q, fy.q, x');
      PairTakes(k, kx, ky, x, y, fx, fy, x');
    case Close =>
      CloseIs(k, x, now, nonce);
      BalanceTurn(x, y, fx.q, fy.q, x');
      PairTakes(k, kx, ky, x, y, fx, fy, x');
  }

  lemma ReceiveIs(x: Conn, chunk: bytes)
    requires !x.sock.destroyed
    ensures var d, x' := Decode(Frames(SESSION_MAX_FRAME), x.rx.buf + chunk), Receive(x, chunk);
            && SameEnd(x, x') && Quiet(x, x')
            && (d.failed && !x.sock.closed ==> x'.sock.destroyed && x'.sock.closed && x'.rx.pending == [] && x'.rx.got == x.rx.got)
            && (!d.failed ==>
                  && Sending(x') == Sending(x) && !x'.sock.destroyed
                  && Receiving(x') == Receiving(x).(pending := x.rx.pending + Payloads(d.units), buf := d.rest))
  {}

  /** Some of what `y` wrote has left the wire. */
  function Drained(y: Conn, n: nat): Conn
    requires n <= |y.sock.out|
  {
    y.(sock := y.sock.(out := y.sock.out[n..]))
  }

  /** Bytes have moved from the wire to `x`, which has decoded them. */
  lemma PairMoves(k: Crypto, kx: bytes, ky: bytes, x: Conn, y: Conn, fx: Flight, fy: Flight, x': Conn, n: nat)
    requires Pair(k, kx, ky, x, y, fx, fy) && n <= |y.sock.out|
    requires Quiet(x, x') && Sending(x') == Sending(x)
    requires Link(k, ky, Sending(y).(out := y.sock.out[n..]), Receiving(x'), fy.h, fy.q)
    ensures Pair(k, kx, ky, x', Drained(y, n), fx, fy)
  {
    assert Receiving(Drained(y, n)) == Receiving(y);
    assert Sending(Drained(y, n)) == Sending(y).(out := y.sock.out[n..]);
  }

  /** An end that is closed has nothing in flight to it. */
  lemma StillOpen(k: Crypto, kx: bytes, ky: bytes, x: Conn, y: Conn, fx: Flight, fy: Flight, m: nat)
    requires Pair(k, kx, ky, x, y, fx, fy)
    requires m < |InFlight(k, ky, Receiving(x).rxGen, fy.h, fy.q)| && !x.sock.destroyed
    ensures !x.sock.closed
  {}

  /** Whatever leaves the wire for an end that gave up. */
  lemma PairWastes(k: Crypto, kx: bytes, ky: bytes, x: Conn, y: Conn, fx: Flight, n: nat)
    requires Pair(k, kx, ky, x, y, fx, NOTHING) && n <= |y.sock.out| && x.sock.destroyed
    ensures Pair(k, kx, ky, x, Drained(y, n), fx, NOTHING)
  {
    assert Receiving(Drained(y, n)) == Receiving(y);
  }

  /** A chunk of what `y` wrote reaches `x`; only an oversized frame makes `x` give up. */
  lemma ChunkKeeps(k: Crypto, kx: bytes, ky: bytes, x: Conn, y: Conn, fx: Flight, fy: Flight, n: nat)
    returns (fy': Flight, m: nat)
    requires Pair(k, kx, ky, x, y, fx, fy) && n <= |y.sock.out|
    ensures var x' := Receive(x, y.sock.out[..n]);
            && Pair(k, kx, ky, x', Drained(y, n), fx, fy') && SameEnd(x, x')
            && fy' == (if x'.sock.destroyed then NOTHING else fy)
            && (x'.sock.destroyed && !x.sock.destroyed ==>
                  var fs := InFlight(k, ky, Receiving(x).rxGen, fy.h, fy.q);
                  m < |fs| && |fs[m]| > SESSION_MAX_FRAME)
  {
    var x' := Receive(x, y.sock.out[..n]);
    fy', m := fy, 0;
    if x.sock.destroyed {
      PairWastes(k, kx, ky, x, y, fx, n);
    } else {
      ReceiveIs(x, y.sock.out[..n]);
      m := LinkChunk(k, ky, Sending(y), Receiving(x), fy.h, fy.q, n);
      if Decode(Frames(SESSION_MAX_FRAME), x.rx.buf + y.sock.out[..n]).failed {
        StillOpen(k, kx, ky, x, y, fx, fy, m);
        PairDies(k, kx, ky, x, y, fx, fy, x');
        PairWastes(k, kx, ky, x', y, fx, n);
        fy' := NOTHING;
      } else {
        PairMoves(k, kx, ky, x, y, fx, fy, x', n);
      }
    }
  }

  /** The frame limiter, a handshake timeout or a socket event ends an end, or leaves it as it was. */
  lemma FailKeeps(k: Crypto, kx: bytes, ky: bytes, x: Conn, y: Conn, fx: Flight, fy: Flight)
    returns (fy': Flight)
    requires Pair(k, kx, ky, x, y, fx, fy)
    ensures Pair(k, kx, ky, Fail(x), y, fx, fy') && SameEnd(x, Fail(x))
    ensures fy' == if Fail(x).sock.destroyed then NOTHING else fy
  {
    fy' := fy;
    if !x.sock.closed {
      PairDies(k, kx, ky, x, y, fx, fy, Fail(x));
      fy' := NOTHING;
    }
  }

  /** What a step that is no handshake turn may do to what is in flight. */
  ghost predicate FlightsStep(x: Conn, fx: Flight, fy: Flight, x': Conn, fx': Flight, fy': Flight) {
    && SameEnd(x, x') && fx'.h == fx.h && (x.session.None? || !Writable(x) ==> fx' == fx)
    && (fy' == fy || (fy' == NOTHING && x'.sock.destroyed) || (x.session.Some? && fy.q != [] && fy.h == [] && fy'.h == []))
  }

  lemma NextDenied(k: Crypto, x: Conn, now: int, nonce: Nonce)
    requires x.rx.pending != [] && !x.sock.closed
    ensures var x' := HandleNext(k, x, false, now, nonce);
            Quiet(x, x') && SameEnd(x, x') && x'.sock.destroyed && x'.sock.closed && x'.rx.pending == [] && x'.rx.got == x.rx.got
  {}

  /** Frames wait for their turn only at an end that is open. */
  lemma PendingIsOpen(k: Crypto, kx: bytes, ky: bytes, x: Conn, y: Conn, fx: Flight, fy: Flight)
    requires Pair(k, kx, ky, x, y, fx, fy) && x.rx.pending != []
    ensures !x.sock.closed && !x.sock.destroyed
    ensures fy.h != [] || fy.q != []
  {}

  lemma TurnKeeps(k: Crypto, kx: bytes, ky: bytes, x: Conn, y: Conn, fx: Flight, fy: Flight,
                  allowed: bool, now: int, nonce: Nonce)
    returns (fx': Flight, fy': Flight)
    requires Laws(k) && Pair(k, kx, ky, x, y, fx, fy)
    requires allowed && x.rx.pending != [] ==> x.session.Some? && fy.h == []
    ensures var x' := HandleNext(k, x, allowed, now, nonce);
            Pair(k, kx, ky, x', y, fx', fy') && FlightsStep(x, fx, fy, x', fx', fy')
  {
    fx', fy' := fx, fy;
    if x.rx.pending != [] {
      PendingIsOpen(k, kx, ky, x, y, fx, fy);
      if allowed {
        fx', fy' := SealedTurn(k, kx, ky, x, y, fx, fy, now, nonce);
      } else {
        NextDenied(k, x, now, nonce);
        PairDies(k, kx, ky, x, y, fx, fy, HandleNext(k, x, false, now, nonce));
        fy' := NOTHING;
      }
    }
  }

  /** The calls of the application and the timer of the initiator. */
  lemma CallKeeps(k: Crypto, kx: bytes, ky: bytes, x: Conn, y: Conn, fx: Flight, fy: Flight, op: Op)
    returns (fx': Flight)
    requires Laws(k) && Pair(k, kx, ky, x, y, fx, fy)
    requires op.AppSend? || op.AppRekey? || op.AppClose? || op.Tick?
    ensures Pair(k, kx, ky, Apply(k, x, op), y, fx', fy)
    ensures FlightsStep(x, fx, fy, Apply(k, x, op), fx', fy)
  {
    match op
    case AppSend(body, now, nonce, nonce2) => fx' := SendKeeps(k, kx, ky, x, y, fx, fy, body, now, nonce, nonce2);
    case AppRekey(nonce) => fx' := StartRekeyKeeps(k, kx, ky, x, y, fx, fy, nonce);
    case AppClose(nonce) => fx' := ShutKeeps(k, kx, ky, x, y, fx, fy, nonce);
    case Tick(now, nonce) => fx' := AutoRekeyKeeps(k, kx, ky, x, y, fx, fy, now, nonce);
  }

  /** The events that end an end. */
  lemma FailingKeeps(k: Crypto, kx: bytes, ky: bytes, x: Conn, y: Conn, fx: Flight, fy: Flight, op: Op)
    returns (fy': Flight)
    requires Pair(k, kx, ky, x, y, fx, fy) && (op.HandshakeTimeout? || op.SocketError? || op.SocketClosed?)
    ensures Pair(k, kx, ky, Apply(k, x, op), y, fx, fy')
    ensures FlightsStep(x, fx, fy, Apply(k, x, op), fx, fy')
  {
    fy' := fy;
    if op.SocketClosed? {
      PairDies(k, kx, ky, x, y, fx, fy, Dead(x));
      fy' := NOTHING;
    } else if op.SocketError? || x.session.None? {
      fy' := FailKeeps(k, kx, ky, x, y, fx, fy);
    }
  }

  /** The writing side of a socket finishes. */
  lemma EndedKeeps(k: Crypto, kx: bytes, ky: bytes, x: Conn, y: Conn, fx: Flight, fy: Flight)
    requires Pair(k, kx, ky, x, y, fx, fy)
    ensures Pair(k, kx, ky, Apply(k, x, SocketEnded), y, fx, fy)
    ensures FlightsStep(x, fx, fy, Apply(k, x, SocketEnded), fx, fy)
  {
    PairQuiet(k, kx, ky, x, y, fx, fy, x.(sock := x.sock.(ended := true)));
  }

  /** Every step of one end other than a handshake turn. */
  lemma ActKeeps(k: Crypto, kx: bytes, ky: bytes, x: Conn, y: Conn, fx: Flight, fy: Flight, op: Op)
    returns (fx': Flight, fy': Flight)
    requires Laws(k) && Pair(k, kx, ky, x, y, fx, fy) && !op.Chunk?
    requires op.Turn? && op.allowed && x.rx.pending != [] ==> x.session.Some? && fy.h == []
    ensures Pair(k, kx, ky, Apply(k, x, op), y, fx', fy')
    ensures FlightsStep(x, fx, fy, Apply(k, x, op), fx', fy')
  {
    fx', fy' := fx, fy;
    match op
    case Turn(allowed, now, nonce) => fx', fy' := TurnKeeps(k, kx, ky, x, y, fx, fy, allowed, now, nonce);
    case SocketEnded => EndedKeeps(k, kx, ky, x, y, fx, fy);
    case HandshakeTimeout => fy' := FailingKeeps(k, kx, ky, x, y, fx, fy, op);
    case SocketError => fy' := FailingKeeps(k, kx, ky, x, y, fx, fy, op);
    case SocketClosed => fy' := FailingKeeps(k, kx, ky, x, y, fx, fy, op);
    case _ => fx' := CallKeeps(k, kx, ky, x, y, fx, fy, op);
  }
}
