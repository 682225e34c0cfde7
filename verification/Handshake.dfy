/**
 * The three-message handshake and the sealed channel it opens (src/crypto/handshake.js). The
 * primitives are functions about which only `Laws` is known.
 */
module Handshake {
  import opened Bytes

  const KEY_LEN: nat := 32
  const ID_LEN: nat := 32
  const SIG_LEN: nat := 64
  const NONCE_LEN: nat := 24
  const TAG_LEN: nat := 16
  const MSG1_LEN: nat := 128
  const MSG2_LEN: nat := 128
  const MSG3_LEN: nat := 64

  type Nonce = n: bytes | |n| == NONCE_LEN witness seq(NONCE_LEN, i => 0)

  /**
   * X25519 (`dh` is `None` where the library refuses the point), Ed25519, HKDF-SHA256 and
   * XChaCha20-Poly1305.
   */
  datatype Crypto = Crypto(
    pub: bytes -> bytes,
    dh: (bytes, bytes) -> Option<bytes>,
    idOf: bytes -> bytes,
    sign: (bytes, bytes) -> bytes,
    verify: (bytes, bytes, bytes) -> bool,
    hkdf: (bytes, bytes, bytes) -> bytes,
    encrypt: (bytes, bytes, bytes) -> bytes,
    decrypt: (bytes, bytes, bytes) -> Option<bytes>)

  /**
   * Fixed widths; a signature verifies under its signer's key; both ends of an exchange compute the
   * same secret (section 6.1 of RFC 7748); decryption undoes encryption.
   */
  ghost predicate Laws(k: Crypto) {
    && (forall e :: |k.pub(e)| == KEY_LEN)
    && (forall s :: |k.idOf(s)| == ID_LEN)
    && (forall s, m :: |k.sign(s, m)| == SIG_LEN && k.verify(k.sign(s, m), m, k.idOf(s)))
    && (forall a, b :: k.dh(a, k.pub(b)).Some?)
    && (forall a, b :: k.dh(a, k.pub(b)) == k.dh(b, k.pub(a)))
    && (forall key, n, p :: |k.encrypt(key, n, p)| == |p| + TAG_LEN)
    && (forall key, n, p :: k.decrypt(key, n, k.encrypt(key, n, p)) == Some(p))
  }

  /** The laws do not contradict each other. */
  lemma LawsSatisfiable()
    ensures exists k: Crypto :: Laws(k)
  {
    var k := Crypto(
      e => seq(KEY_LEN, i => 0), (a, b) => Some([]), s => seq(ID_LEN, i => 0), (s, m) => seq(SIG_LEN, i => 0),
      (sig, m, id) => true, (salt, ikm, info) => [], (key, n, p) => p + seq(TAG_LEN, i => 0),
      (key, n, ct) => if |ct| < TAG_LEN then None else Some(ct[..|ct| - TAG_LEN]));
    forall key: bytes, n: bytes, p: bytes
      ensures k.decrypt(key, n, k.encrypt(key, n, p)) == Some(p)
    {
      CutHead<byte>(p, seq(TAG_LEN, i => 0));
    }
    assert Laws(k);
  }

  function Ascii(s: string): bytes {
    seq(|s|, i requires 0 <= i < |s| => s[i] as int % 256)
  }

  const HKDF_SALT: bytes := Ascii("AttestP2P-noise-v1")
  const REKEY_SALT: bytes := Ascii("AttestP2P-rekey-v1")

  // ---- The sealed channel ----

  /** `SecureSession`; an absent generation counter of the source is 0. */
  datatype Session = Session(txKey: bytes, rxKey: bytes, txGen: nat, rxGen: nat, peerId: bytes)

  function Rekeyed(k: Crypto, key: bytes): bytes {
    k.hkdf(REKEY_SALT, key, Ascii("AttestP2P rekey"))
  }

  function RekeyTx(k: Crypto, s: Session): Session {
    s.(txKey := Rekeyed(k, s.txKey), txGen := s.txGen + 1)
  }

  function RekeyRx(k: Crypto, s: Session): Session {
    s.(rxKey := Rekeyed(k, s.rxKey), rxGen := s.rxGen + 1)
  }

  function SealUnder(k: Crypto, key: bytes, nonce: Nonce, plain: bytes): bytes {
    nonce + k.encrypt(key, nonce, plain)
  }

  /** `open`: `None` is a message too short or one that does not authenticate. */
  function OpenUnder(k: Crypto, key: bytes, sealed: bytes): Option<bytes> {
    if |sealed| < NONCE_LEN then None
    else k.decrypt(key, sealed[..NONCE_LEN], sealed[NONCE_LEN..])
  }

  /** What is sealed under a key opens under it, and sealing adds 40 bytes. */
  lemma OpenSealed(k: Crypto, key: bytes, nonce: Nonce, plain: bytes)
    requires Laws(k)
    ensures OpenUnder(k, key, SealUnder(k, key, nonce, plain)) == Some(plain)
    ensures |SealUnder(k, key, nonce, plain)| == |plain| + NONCE_LEN + TAG_LEN
  {
    CutHead(nonce, k.encrypt(key, nonce, plain));
  }

  /** The key a direction uses in its generation `gen`. */
  function KeyAt(k: Crypto, base: bytes, gen: nat): bytes {
    if gen == 0 then base else Rekeyed(k, KeyAt(k, base, gen - 1))
  }

  // ---- The three messages ----

  /** The secrets of one end: its ephemeral X25519 key and its Ed25519 identity. */
  datatype Secrets = Secrets(eph: bytes, id: bytes)

  /** `kI`: initiator to responder. */
  function KeyI(k: Crypto, secret: bytes): bytes {
    k.hkdf(HKDF_SALT, secret, Ascii("AttestP2P I->R"))
  }

  /** `kR`: responder to initiator. */
  function KeyR(k: Crypto, secret: bytes): bytes {
    k.hkdf(HKDF_SALT, secret, Ascii("AttestP2P R->I"))
  }

  function Message1(k: Crypto, me: Secrets): bytes {
    k.pub(me.eph) + (k.idOf(me.id) + k.sign(me.id, k.pub(me.eph)))
  }

  /** `consumeMessage2`: MSG3 and the initiator's session, or the throw. */
  function ConsumeMessage2(k: Crypto, me: Secrets, msg2: bytes): Option<(bytes, Session)> {
    if |msg2| != MSG2_LEN then None
    else
      var ePub, id, sig := msg2[..KEY_LEN], msg2[KEY_LEN..KEY_LEN + ID_LEN], msg2[KEY_LEN + ID_LEN..];
      if !k.verify(sig, ePub + k.pub(me.eph), id) then None
      else
        match k.dh(me.eph, ePub)
        case None => None
        case Some(secret) =>
          Some((k.sign(me.id, k.pub(me.eph) + ePub), Session(KeyI(k, secret), KeyR(k, secret), 0, 0, id)))
  }

  /** What the responder keeps of MSG1. */
  datatype Half = Half(ePub: bytes, id: bytes, session: Session)

  /** `consumeMessage1`: MSG2 and the responder's pending session, or the throw. */
  function ConsumeMessage1(k: Crypto, me: Secrets, msg1: bytes): Option<(bytes, Half)> {
    if |msg1| != MSG1_LEN then None
    else
      var ePub, id, sig := msg1[..KEY_LEN], msg1[KEY_LEN..KEY_LEN + ID_LEN], msg1[KEY_LEN + ID_LEN..];
      if !k.verify(sig, ePub, id) then None
      else
        match k.dh(me.eph, ePub)
        case None => None
        case Some(secret) =>
          var msg2 := k.pub(me.eph) + (k.idOf(me.id) + k.sign(me.id, k.pub(me.eph) + ePub));
          Some((msg2, Half(ePub, id, Session(KeyR(k, secret), KeyI(k, secret), 0, 0, id))))
  }

  /** `consumeMessage3`: the responder's session, or the throw. */
  function ConsumeMessage3(k: Crypto, me: Secrets, half: Half, msg3: bytes): Option<Session> {
    if |msg3| != MSG3_LEN then None
    else if !k.verify(msg3, half.ePub + k.pub(me.eph), half.id) then None
    else Some(half.session)
  }

  lemma FieldsOfMessage(a: bytes, b: bytes, c: bytes)
    requires |a| == KEY_LEN && |b| == ID_LEN && |c| == SIG_LEN
    ensures var m := a + (b + c);
            |m| == MSG1_LEN && m[..KEY_LEN] == a && m[KEY_LEN..KEY_LEN + ID_LEN] == b && m[KEY_LEN + ID_LEN..] == c
  {
    CutHead(a, b + c);
    Middle(a, b, c);
    Assoc(a, b, c);
    CutHead(a + b, c);
  }

  function SharedSecret(k: Crypto, i: Secrets, r: Secrets): bytes
    requires Laws(k)
  {
    k.dh(i.eph, k.pub(r.eph)).value
  }

  /** The messages and the pending session of an honest exchange. */
  function Message2(k: Crypto, i: Secrets, r: Secrets): bytes {
    k.pub(r.eph) + (k.idOf(r.id) + k.sign(r.id, k.pub(r.eph) + k.pub(i.eph)))
  }

  function Message3(k: Crypto, i: Secrets, r: Secrets): bytes {
    k.sign(i.id, k.pub(i.eph) + k.pub(r.eph))
  }

  ghost function HalfOf(k: Crypto, i: Secrets, r: Secrets): Half
    requires Laws(k)
  {
    var secret := SharedSecret(k, i, r);
    Half(k.pub(i.eph), k.idOf(i.id), Session(KeyR(k, secret), KeyI(k, secret), 0, 0, k.idOf(i.id)))
  }

  ghost function InitiatorSession(k: Crypto, i: Secrets, r: Secrets): Session
    requires Laws(k)
  {
    var secret := SharedSecret(k, i, r);
    Session(KeyI(k, secret), KeyR(k, secret), 0, 0, k.idOf(r.id))
  }

  /**
   * Handshake agreement. Between honest ends no message is refused, and the two sessions mirror each
   * other: each sends with the key the other receives with and names the other's identity.
   */
  lemma HandshakeAgreement(k: Crypto, i: Secrets, r: Secrets)
    requires Laws(k)
    ensures |Message1(k, i)| == MSG1_LEN && |Message2(k, i, r)| == MSG2_LEN && |Message3(k, i, r)| == MSG3_LEN
    ensures ConsumeMessage1(k, r, Message1(k, i)) == Some((Message2(k, i, r), HalfOf(k, i, r)))
    ensures ConsumeMessage2(k, i, Message2(k, i, r)) == Some((Message3(k, i, r), InitiatorSession(k, i, r)))
    ensures ConsumeMessage3(k, r, HalfOf(k, i, r), Message3(k, i, r)) == Some(HalfOf(k, i, r).session)
    ensures var si, sr := InitiatorSession(k, i, r), HalfOf(k, i, r).session;
            && si.txKey == sr.rxKey && si.rxKey == sr.txKey
            && si.peerId == k.idOf(r.id) && sr.peerId == k.idOf(i.id)
  {
    FieldsOfMessage(k.pub(i.eph), k.idOf(i.id), k.sign(i.id, k.pub(i.eph)));
    FieldsOfMessage(k.pub(r.eph), k.idOf(r.id), k.sign(r.id, k.pub(r.eph) + k.pub(i.eph)));
    assert k.dh(r.eph, k.pub(i.eph)) == k.dh(i.eph, k.pub(r.eph));
  }
}
