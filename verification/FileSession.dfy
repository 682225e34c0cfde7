/**
 * File nodes joined by a session: what a node sends through `send`, encoded as src/file/protocol.js does,
 * is what its peer handles, so a peer that runs this program is the honest peer of a download.
 */
module FileSession {
  import opened Bytes
  import opened Manifest
  import opened Download
  import opened FileNode
  import opened Transfer
  import H = Handshake
  import L = SessionLink
  import P = FileProtocol
  import R = SessionRun
  import S = ChunkStore
  import SessionSafety

  /** Both layers verify signatures with the same function. */
  ghost predicate Shares(k: H.Crypto, c: Suite) {
    forall sig, m, id :: c.verify(sig, m, id) == k.verify(sig, m, id)
  }

  /** CHUNK_DATA as a protocol message. */
  function MessageOf(d: Data): P.Message {
    P.ChunkData(d.fileId, d.idx, d.chunkHash, d.signature, d.data)
  }

  /** A reply of a node with the secret key `id`, served from a store like its manifests. */
  ghost predicate ServedFrom(k: H.Crypto, c: Suite, cat: map<bytes, Body>, id: bytes, s: S.Store, d: Data) {
    && StoreMatches(c, cat, s) && S.Has(s, d.fileId, d.idx) && d.idx < U32 && Digested(cat[d.fileId])
    && Serve(c, m => k.sign(id, m), s, d.fileId, d.idx) == Some(d)
  }

  /** A message such a node sends: any kind, but chunks only from such a store. */
  ghost predicate Said(k: H.Crypto, c: Suite, j: P.Json, cat: map<bytes, Body>, id: bytes, m: P.Message) {
    && P.WellFormed(m)
    && (m.Manifest? ==> j.parse(j.text(m.manifest)) == Some(m.manifest))
    && (m.ChunkData? ==>
          exists s :: ServedFrom(k, c, cat, id, s, Data(m.fileId, m.idx, m.chunkHash, m.signature, m.data)))
  }

  /** A body handed to `send` by such a node. */
  ghost predicate Speaks(k: H.Crypto, c: Suite, j: P.Json, cat: map<bytes, Body>, id: bytes, body: bytes) {
    exists m :: Said(k, c, j, cat, id, m) && P.Encode(j, m) == Some(body)
  }

  /** A chunk read from such a body passes every check of a requester. */
  lemma SpokenIsGood(k: H.Crypto, c: Suite, j: P.Json, cat: map<bytes, Body>, id: bytes, body: bytes, d: Data)
    requires H.Laws(k) && Shares(k, c) && Speaks(k, c, j, cat, id, body)
    requires P.Decode(j, body) == Some(MessageOf(d))
    ensures d.fileId in cat && Good(c, cat[d.fileId], k.idOf(id), d)
  {
    var m :| Said(k, c, j, cat, id, m) && P.Encode(j, m) == Some(body);
    P.MessageRoundTrip(j, m);
    var s :| ServedFrom(k, c, cat, id, s, d);
    ServedIsGood(c, cat, x => k.sign(id, x), k.idOf(id), s, d.fileId, d.idx);
  }

  /** The secret identity key of one end. */
  function IdKey(u: R.Setup, side: R.Side): bytes {
    if side == R.I then u.i.id else u.r.id
  }

  /** The chunk `d` is read from a message emitted to the peer of `side`, which runs this program. */
  ghost predicate Delivered(k: H.Crypto, u: R.Setup, c: Suite, j: P.Json, cat: map<bytes, Body>, side: R.Side, s: R.Sys, d: Data) {
    && R.Reachable(k, u, s)
    && (forall b :: b in SessionSafety.End(s, side).tx.sent ==> Speaks(k, c, j, cat, IdKey(u, side), b))
    && exists b :: b in L.Told(SessionSafety.End(s, SessionSafety.Other(side)).rx.got) && P.Decode(j, b) == Some(MessageOf(d))
  }

  /** Chunks that come through a session from such a node are good, whatever the network did to the bytes. */
  lemma DeliveredIsGood(k: H.Crypto, u: R.Setup, c: Suite, j: P.Json, cat: map<bytes, Body>, side: R.Side, s: R.Sys, d: Data)
    requires H.Laws(k) && Shares(k, c) && Delivered(k, u, c, j, cat, side, s, d)
    ensures d.fileId in cat && Good(c, cat[d.fileId], k.idOf(IdKey(u, side)), d)
  {
    SessionSafety.FifoDelivery(k, u, s);
    var told := L.Told(SessionSafety.End(s, SessionSafety.Other(side)).rx.got);
    var sent := SessionSafety.End(s, side).tx.sent;
    assert told <= sent;
    var b :| b in told && P.Decode(j, b) == Some(MessageOf(d));
    assert b in sent;
    SpokenIsGood(k, c, j, cat, IdKey(u, side), b, d);
  }

  /** The identity under which a session is attached is that of the node at its other end. */
  lemma AttachedAs(k: H.Crypto, u: R.Setup, s: R.Sys, side: R.Side)
    requires H.Laws(k) && R.Reachable(k, u, s)
    ensures var x := SessionSafety.End(s, SessionSafety.Other(side));
            x.session.Some? ==> x.session.value.peerId == k.idOf(IdKey(u, side))
  {
    var fi, fr := R.ReachableInv(k, u, s);
  }

  /** What connection `q` brings comes through one session with such a node, and stays open. */
  ghost predicate Connected(k: H.Crypto, u: R.Setup, c: Suite, j: P.Json, cat: map<bytes, Body>, side: R.Side, q: Peer,
                            n: Node, e: Event) {
    && e != Closed(q)
    && (q < |n.net.ids| ==> n.net.ids[q] == k.idOf(IdKey(u, side)))
    && (e.GotData? && e.p == q ==> exists s :: Delivered(k, u, c, j, cat, side, s, e.msg))
  }

  lemma ConnectedIsHonest(k: H.Crypto, u: R.Setup, c: Suite, j: P.Json, cat: map<bytes, Body>, side: R.Side, q: Peer,
                          n: Node, e: Event, f: bytes)
    requires H.Laws(k) && Shares(k, c) && Connected(k, u, c, j, cat, side, q, n, e)
    requires NodeInv(c, cat, n) && f in n.downloads
    ensures Honest(c, n, e, f, q)
  {
    if e.GotData? && e.p == q {
      var s :| Delivered(k, u, c, j, cat, side, s, e.msg);
      DeliveredIsGood(k, u, c, j, cat, side, s, e.msg);
      assert Active(cat, n.net, n.store, f, n.downloads[f]);
    }
  }

  /**
   * Convergence between two nodes. The hypothesis of `Convergence` on one honest peer is met by a peer that
   * runs this program: a connection over a session with a node that serves from a matching store. While
   * that connection stays and announces every wanted chunk, the download is never idle, and it completes
   * before `nb * (1 + |sessions|)` solicited replies, whatever the other peers send.
   */
  lemma ConvergesOverSession(k: H.Crypto, u: R.Setup, c: Suite, j: P.Json, cat: map<bytes, Body>, side: R.Side,
                             states: seq<Node>, events: seq<Event>, f: bytes, q: Peer, n: nat)
    requires H.Laws(k) && Shares(k, c)
    requires Run(c, cat, states, events) && NoNewSessions(events) && n < |states|
    requires StaysActive(states, events, f, 0, n)
    requires Reliable(states[0], f, q) && states[0].downloads[f].parallel > 0
    requires forall i :: 0 <= i < n ==> Connected(k, u, c, j, cat, side, q, states[i], events[i])
    ensures states[n].downloads[f].inFlight != map[]
    ensures Replies(states, events, f, n) < states[0].downloads[f].body.nbChunks * (1 + |states[0].net.sessions|)
  {
    forall i | 0 <= i < n
      ensures Honest(c, states[i], events[i], f, q)
    {
      RunKeepsInv(c, cat, states, events, i);
      ConnectedIsHonest(k, u, c, j, cat, side, q, states[i], events[i], f);
    }
    Convergence(c, cat, states, events, f, q, n);
  }
}
