/**
 * One end of an encrypted session (src/session/secureConnection.js): what each call, timer and socket
 * event does to it. Times are integer milliseconds; random nonces are parameters.
 */
module SecureConnection {
  import opened Bytes
  import opened FixedWindow
  import opened Frame
  import opened Handshake
  import opened StreamCodec

  const SESSION_MAX_FRAME: nat := 2 * 1024 * 1024
  const SESSION_MAX_MSG_PER_SECOND: nat := 100
  const SESSION_REKEY_EVERY_MSGS: nat := 1000
  const SESSION_REKEY_EVERY_BYTES: nat := 8 * 1024 * 1024
  const SESSION_REKEY_EVERY_MS: nat := 5 * 60 * 1000

  const CTRL_DATA: byte := 0
  const CTRL_REKEY: byte := 1
  const CTRL_REKEY_ACK: byte := 2
  const CTRL_CLOSE: byte := 3

  // ---- Plaintexts ----

  type u64 = n: nat | n < U64

  datatype Plain = Data(num: u64, body: bytes) | Rekey | RekeyAck | Close

  function PlainBytes(p: Plain): bytes {
    match p
    case Data(num, body) => [CTRL_DATA] + (Put64(num) + body)
    case Rekey => [CTRL_REKEY]
    case RekeyAck => [CTRL_REKEY_ACK]
    case Close => [CTRL_CLOSE]
  }

  /** How the receiver reads a plaintext; `None` is a throw (truncated DATA or unknown type). */
  function ReadPlain(pt: bytes): Option<Plain> {
    var kind := if |pt| > 0 then pt[0] else CTRL_DATA;
    if kind == CTRL_DATA then
      if |pt| < 9 then None else Some(Data(Get64(pt, 1), pt[9..]))
    else if kind == CTRL_REKEY then Some(Rekey)
    else if kind == CTRL_REKEY_ACK then Some(RekeyAck)
    else if kind == CTRL_CLOSE then Some(Close)
    else None
  }

  lemma PlainRoundTrip(p: Plain)
    ensures ReadPlain(PlainBytes(p)) == Some(p)
    ensures |PlainBytes(p)| == if p.Data? then 9 + |p.body| else 1
  {
    if p.Data? {
      Middle([CTRL_DATA], Put64(p.num), p.body);
      Assoc([CTRL_DATA], Put64(p.num), p.body);
      CutHead([CTRL_DATA] + Put64(p.num), p.body);
    }
  }

  // ---- The state of one end ----

  datatype Policy = Policy(maxPerSecond: nat, everyMsgs: nat, everyBytes: nat, everyMs: nat)

  /** An option that is absent or zero takes its default. */
  function OrDefault(v: nat, d: nat): nat {
    if v == 0 then d else v
  }

  function Effective(p: Policy): Policy {
    Policy(OrDefault(p.maxPerSecond, SESSION_MAX_MSG_PER_SECOND), OrDefault(p.everyMsgs, SESSION_REKEY_EVERY_MSGS),
           OrDefault(p.everyBytes, SESSION_REKEY_EVERY_BYTES), OrDefault(p.everyMs, SESSION_REKEY_EVERY_MS))
  }

  /** What has been sent since the last renewal of keys. */
  datatype Rk = Rk(msgs: nat, bytes: nat, since: int)

  /** A message handed to the application, its sequence number and when it was. */
  datatype Message = Message(num: u64, body: bytes, at: int)

  /** What an end is given once and for all. */
  datatype Self = Self(initiator: bool, secrets: Secrets, policy: Policy)

  /** The responder's side of the handshake: what it keeps of MSG1, and whether it has answered it. */
  datatype Hs = Hs(half: Option<Half>, step: nat)

  /**
   * `ended`: the socket's writing side is finished; `destroyed`: nothing is read from it any more;
   * `out`: the bytes handed to it.
   */
  datatype Sock = Sock(closed: bool, ended: bool, destroyed: bool, out: bytes)

  /** The sending side; `sent` lists the bodies whose `send` returned. */
  datatype Tx = Tx(num: nat, rekeying: bool, rk: Rk, sent: seq<bytes>)

  /** The receiving side; `pending` are the decoded frames not handled yet, `got` the messages emitted. */
  datatype Rx = Rx(last: Option<nat>, window: Counter, buf: bytes, pending: seq<bytes>, got: seq<Message>)

  datatype Conn = Conn(self: Self, hs: Hs, session: Option<Session>, sock: Sock, tx: Tx, rx: Rx)

  /** What is written still reaches the peer. */
  predicate Writable(c: Conn) {
    !c.sock.closed && !c.sock.ended
  }

  /** A call that returned, or one that threw and the state it left. */
  datatype Result = Done(conn: Conn) | Threw(conn: Conn)

  function Write(c: Conn, frame: bytes): Result {
    if c.sock.closed then Done(c)
    else match EncodeFrame(frame)
      case None => Threw(c)
      case Some(encoded) => Done(if c.sock.ended then c else c.(sock := c.sock.(out := c.sock.out + encoded)))
  }

  /** The constructor: the initiator writes MSG1 at once. */
  function Opened(k: Crypto, initiator: bool, secrets: Secrets, policy: Policy, now: int): Conn {
    var c := Conn(Self(initiator, secrets, Effective(policy)), Hs(None, 0), None, Sock(false, false, false, []),
                  Tx(0, false, Rk(0, 0, now), []), Rx(None, Counter(0, now), [], [], []));
    if initiator then Write(c, Message1(k, secrets)).conn else c
  }

  /** Seals a plaintext and writes it; a control message that renews keys advances the sending key. */
  function Emit(k: Crypto, c: Conn, nonce: Nonce, p: Plain): Result
    requires c.session.Some?
  {
    var w := Write(c, SealUnder(k, c.session.value.txKey, nonce, PlainBytes(p)));
    if w.Threw? then w
    else if p.Rekey? || p.RekeyAck? then Done(w.conn.(session := Some(RekeyTx(k, c.session.value))))
    else w
  }

  // ---- Calls of the application ----

  /** `rekey` */
  function StartRekey(k: Crypto, c: Conn, nonce: Nonce): Conn {
    if c.session.None? || c.tx.rekeying then c
    else Emit(k, c.(tx := c.tx.(rekeying := true)), nonce, Rekey).conn
  }

  predicate RekeyDue(policy: Policy, rk: Rk, now: int) {
    rk.msgs >= policy.everyMsgs || rk.bytes >= policy.everyBytes || now - rk.since >= policy.everyMs
  }

  /** `_maybeAutoRekey` */
  function MaybeAutoRekey(k: Crypto, c: Conn, now: int, nonce: Nonce): Conn {
    if !c.self.initiator || c.session.None? || c.tx.rekeying then c
    else if RekeyDue(c.self.policy, c.tx.rk, now) then StartRekey(k, c, nonce)
    else c
  }

  /** The accounting of `send` for one message. */
  function Account(tx: Tx, body: bytes): Tx {
    tx.(rk := Rk(tx.rk.msgs + 1, tx.rk.bytes + |body|, tx.rk.since), sent := tx.sent + [body])
  }

  /** The DATA message that bears the current number is sent and accounted for. */
  function SendNumbered(k: Crypto, c: Conn, body: bytes, nonce: Nonce): Result
    requires c.session.Some? && c.tx.num < U64
  {
    var w := Emit(k, c, nonce, Data(c.tx.num, body));
    if w.Threw? then w else Done(w.conn.(tx := Account(w.conn.tx, body)))
  }

  /** The next DATA message takes the next number. */
  function Numbered(c: Conn): Conn {
    c.(tx := c.tx.(num := c.tx.num + 1))
  }

  /** `send` up to its accounting: throws without a session, past 2^64 messages, and on a frame of 2^32 bytes. */
  function SendData(k: Crypto, c: Conn, body: bytes, nonce: Nonce): Result {
    if c.session.None? then Threw(c)
    else if c.tx.num + 1 >= U64 then Threw(Numbered(c))
    else SendNumbered(k, Numbered(c), body, nonce)
  }

  /** `send` */
  function Send(k: Crypto, c: Conn, body: bytes, now: int, nonce: Nonce, nonce2: Nonce): Result {
    var w := SendData(k, c, body, nonce);
    if w.Threw? then w else Done(MaybeAutoRekey(k, w.conn, now, nonce2))
  }

  /** `close` */
  function Shut(k: Crypto, c: Conn, nonce: Nonce): Conn {
    if c.sock.closed then c
    else
      var c1 := if c.session.Some? then Emit(k, c, nonce, Close).conn else c;
      c1.(sock := c1.sock.(ended := true))
  }

  // ---- Incoming frames ----

  /** The end reads nothing more; the frames of the chunk being handled are given up. */
  function Dead(c: Conn): Conn {
    c.(sock := c.sock.(closed := true, destroyed := true), rx := c.rx.(pending := []))
  }

  /** `_fail` */
  function Fail(c: Conn): Conn {
    if c.sock.closed then c else Dead(c)
  }

  /** A DATA message: the rate limit of the session, then the sequence check. */
  function HandleData(c: Conn, num: u64, body: bytes, now: int): Conn {
    var c1 := c.(rx := c.rx.(window := Bump(Some(c.rx.window), now, 1000)));
    if c1.rx.window.count > c.self.policy.maxPerSecond then Fail(c1)
    else if c.rx.last.Some? && num <= c.rx.last.value then Fail(c1)
    else c1.(rx := c1.rx.(last := Some(num), got := c.rx.got + [Message(num, body, now)]))
  }

  /** The `switch` of `_handleFrame` on the type of a message. */
  function HandlePlain(k: Crypto, c: Conn, p: Plain, now: int, nonce: Nonce): Result
    requires c.session.Some?
  {
    match p
    case Data(num, body) => Done(HandleData(c, num, body, now))
    case Rekey => Emit(k, c.(session := Some(RekeyRx(k, c.session.value))), nonce, RekeyAck)
    case RekeyAck =>
      Done(c.(session := Some(RekeyRx(k, c.session.value)), tx := c.tx.(rekeying := false, rk := Rk(0, 0, now))))
    case Close => Done(c.(sock := c.sock.(closed := true, ended := true)))
  }

  /** `_handleFrame` once the session is established. */
  function HandleSealed(k: Crypto, c: Conn, frame: bytes, now: int, nonce: Nonce): Result
    requires c.session.Some?
  {
    match OpenUnder(k, c.session.value.rxKey, frame)
    case None => Threw(c)
    case Some(pt) =>
      match ReadPlain(pt)
      case None => Threw(c)
      case Some(p) => HandlePlain(k, c, p, now, nonce)
  }

  /** `_handleFrame` during the handshake. */
  function HandleHandshake(k: Crypto, c: Conn, frame: bytes): Result
    requires c.session.None?
  {
    if c.self.initiator then
      match ConsumeMessage2(k, c.self.secrets, frame)
      case None => Threw(c)
      case Some((msg3, session)) => Write(c.(session := Some(session)), msg3)
    else if c.hs.step == 0 then
      match ConsumeMessage1(k, c.self.secrets, frame)
      case None => Threw(c)
      case Some((msg2, half)) =>
        var w := Write(c.(hs := c.hs.(half := Some(half))), msg2);
        if w.Threw? then w else Done(w.conn.(hs := w.conn.hs.(step := 1)))
    else
      if c.hs.half.None? then Threw(c)
      else
        match ConsumeMessage3(k, c.self.secrets, c.hs.half.value, frame)
        case None => Threw(c)
        case Some(session) => Done(c.(session := Some(session)))
  }

  function HandleFrame(k: Crypto, c: Conn, frame: bytes, now: int, nonce: Nonce): Result {
    if c.session.Some? then HandleSealed(k, c, frame, now, nonce) else HandleHandshake(k, c, frame)
  }

  /** `_onData` as far as the decoder: a refused length ends the session. */
  function Receive(c: Conn, chunk: bytes): Conn {
    if c.sock.destroyed then c
    else
      var d := Decode(Frames(SESSION_MAX_FRAME), c.rx.buf + chunk);
      if d.failed then Fail(c.(rx := c.rx.(buf := d.rest)))
      else c.(rx := c.rx.(buf := d.rest, pending := c.rx.pending + Payloads(d.units)))
  }

  function DropPending(c: Conn): Conn {
    c.(rx := c.rx.(pending := []))
  }

  /** The end of a turn: a throw ends the session, and a closed end gives up the rest of the chunk. */
  function Settled(r: Result): Conn {
    if r.Threw? then DropPending(Fail(r.conn))
    else if r.conn.sock.closed then DropPending(r.conn)
    else r.conn
  }

  /** The oldest decoded frame is taken from the list. */
  function Shifted(c: Conn): Conn
    requires c.rx.pending != []
  {
    c.(rx := c.rx.(pending := c.rx.pending[1..]))
  }

  /** One turn of the loop of `_onData`; `allowed` is the answer of the shared frame limiter. */
  function HandleNext(k: Crypto, c: Conn, allowed: bool, now: int, nonce: Nonce): Conn {
    if c.rx.pending == [] then c
    else if allowed then Settled(HandleFrame(k, Shifted(c), c.rx.pending[0], now, nonce))
    else DropPending(Fail(Shifted(c)))
  }

  // ---- Everything that can happen to one end ----

  /**
   * Handlers run by `emit` call back at the end of a turn, so what they do is the next operation.
   */
  datatype Op =
    | AppSend(body: bytes, now: int, nonce: Nonce, nonce2: Nonce)
    | AppRekey(nonce: Nonce)
    | AppClose(nonce: Nonce)
    | Tick(now: int, nonce: Nonce)
    | Chunk(data: bytes)
    | Turn(allowed: bool, now: int, nonce: Nonce)
    | HandshakeTimeout
    | SocketError
    | SocketClosed
    | SocketEnded

  function Apply(k: Crypto, c: Conn, op: Op): Conn {
    match op
    case AppSend(body, now, nonce, nonce2) => Send(k, c, body, now, nonce, nonce2).conn
    case AppRekey(nonce) => StartRekey(k, c, nonce)
    case AppClose(nonce) => Shut(k, c, nonce)
    case Tick(now, nonce) => MaybeAutoRekey(k, c, now, nonce)
    case Chunk(data) => Receive(c, data)
    case Turn(allowed, now, nonce) => HandleNext(k, c, allowed, now, nonce)
    case HandshakeTimeout => if c.session.None? then Fail(c) else c
    case SocketError => Fail(c)
    case SocketClosed => Dead(c)
    case SocketEnded => c.(sock := c.sock.(ended := true))
  }

  function Run(k: Crypto, c: Conn, ops: seq<Op>): Conn
    decreases |ops|
  {
    if ops == [] then c else Run(k, Apply(k, c, ops[0]), ops[1..])
  }
}
