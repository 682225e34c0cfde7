/**
 * What single events do to a file node, told without the functions that compute it: who is connected and
 * has announced what, what a download wants when it starts, and which chunks and manifests are taken.
 */
module FileEvents {
  import opened Arithmetic
  import opened Bytes
  import opened Manifest
  import opened Download
  import opened FileNode
  import opened Transfer
  import S = ChunkStore

  // ---- Who is connected ----

  /** After an event exactly these are connected: those before, one more after `Attach`, one less after `Closed`. */
  lemma NextSessions(c: Suite, n: Node, e: Event, n': Node)
    requires Next(c, n, e, n')
    ensures forall q: Peer :: q in n'.net.sessions <==>
              (q in n.net.sessions && e != Closed(q)) || (e.Attach? && q == |n.net.ids|)
    ensures n'.net.ids == if e.Attach? then n.net.ids + [e.id] else n.net.ids
  {
    match e
    case GotHave(p, f, bf) =>
    case GotData(p, m) =>
      if m.fileId in n.downloads && p < |n.net.ids| && !Good(c, n.downloads[m.fileId].body, n.net.ids[p], m) {
        assert Refuse(n, p, m).net == n.net;
      }
    case _ =>
  }

  /** A new session has announced nothing, whoever else has. */
  lemma AttachedIsSilent(c: Suite, n: Node, id: bytes, n': Node)
    requires NetInv(n.net) && Next(c, n, Attach(id), n')
    ensures n'.net.ids[|n.net.ids|] == id
    ensures forall q: Peer, f, i :: Says(n'.net, f, q, i) <==> Says(n.net, f, q, i)
  {}

  /** What `p` announced is forgotten; what others announced is not. */
  lemma ClosedForgets(c: Suite, n: Node, p: Peer, n': Node)
    requires Next(c, n, Closed(p), n')
    ensures forall q: Peer, f, i :: Says(n'.net, f, q, i) <==> q != p && Says(n.net, f, q, i)
  {}

  /**
   * A closed peer is gone: it is connected no more, nothing it announced is left, no request to it is in
   * flight, and requests made to others stay as they were. Wanted chunks and marks stay.
   */
  lemma ClosedIsGone(c: Suite, cat: map<bytes, Body>, n: Node, p: Peer, n': Node)
    requires NodeInv(c, cat, n) && Next(c, n, Closed(p), n')
    ensures forall q: Peer :: q in n'.net.sessions <==> q in n.net.sessions && q != p
    ensures forall q: Peer, f, i :: Says(n'.net, f, q, i) <==> q != p && Says(n.net, f, q, i)
    ensures n'.downloads.Keys == n.downloads.Keys
    ensures forall f :: f in n.downloads ==> Without(n.downloads[f], n'.downloads[f], p)
  {
    NextSessions(c, n, Closed(p), n');
    ClosedForgets(c, n, p, n');
    ClosedKeeps(c, cat, n, p, n');
    forall f | f in n.downloads
      ensures Without(n.downloads[f], n'.downloads[f], p)
    {
      assert Active(cat, n.net, n.store, f, n.downloads[f]);
      DownloadWithout(n.net, n'.net, f, n.downloads[f], n'.downloads[f], p);
    }
  }

  /** A download after a peer has left: wants and marks stay, its requests are gone and only those. */
  ghost predicate Without(d: Download, d': Download, p: Peer) {
    && d'.needed == d.needed && d'.bad == d.bad && d'.body == d.body
    && (forall i :: i in d'.inFlight ==> d'.inFlight[i] != p)
    && (forall i :: i in d.inFlight && d.inFlight[i] != p ==> i in d'.inFlight && d'.inFlight[i] == d.inFlight[i])
  }

  lemma DownloadWithout(net: Net, net': Net, f: bytes, d: Download, d': Download, p: Peer)
    requires NetInv(net') && TableInv(net, f, d) && Scheduled(net', f, DropPeer(d, p), d')
    requires forall q: Peer :: q in net'.sessions <==> q in net.sessions && q != p
    requires forall q: Peer, i :: q != p && Says(net, f, q, i) ==> Says(net', f, q, i)
    ensures Without(d, d', p)
  {
    DropPeerTable(net, net', f, d, p);
    ScheduledKeeps(net', f, DropPeer(d, p), d');
    NotConnected(net', f, d', p);
  }

  lemma DropPeerTable(net: Net, net': Net, f: bytes, d: Download, p: Peer)
    requires TableInv(net, f, d)
    requires forall q: Peer :: q in net.sessions && q != p ==> q in net'.sessions
    requires forall q: Peer, i :: q != p && Says(net, f, q, i) ==> Says(net', f, q, i)
    ensures TableInv(net', f, DropPeer(d, p))
  {
    var d' := DropPeer(d, p);
    assert d'.inFlight.Keys <= d.inFlight.Keys;
    SubsetSize(d'.inFlight.Keys, d.inFlight.Keys);
    forall i | i in d'.inFlight
      ensures Eligible(net', f, d', d'.inFlight[i], i)
    {
      assert Eligible(net, f, d, d.inFlight[i], i);
    }
  }

  /** Nothing is in flight to a peer that is not connected. */
  lemma NotConnected(net: Net, f: bytes, d: Download, p: Peer)
    requires TableInv(net, f, d) && p !in net.sessions
    ensures forall i :: i in d.inFlight ==> d.inFlight[i] != p
  {
    forall i | i in d.inFlight
      ensures d.inFlight[i] != p
    {
      assert Eligible(net, f, d, d.inFlight[i], i);
    }
  }

  /** Numbers are never given twice: who has left is not connected at any later time of a run. */
  lemma {:induction false} LeftForGood(c: Suite, cat: map<bytes, Body>, states: seq<Node>, events: seq<Event>,
                                       p: Peer, j: nat, m: nat)
    requires Run(c, cat, states, events) && j < m < |states|
    requires events[j] == Closed(p) && p < |states[j].net.ids|
    ensures p < |states[m].net.ids| && p !in states[m].net.sessions
    decreases m
  {
    assert StepOk(c, cat, states, events, m - 1);
    if j < m - 1 {
      LeftForGood(c, cat, states, events, p, j, m - 1);
    }
    NextSessions(c, states[m - 1], events[m - 1], states[m]);
  }

  /** So after a session has closed no state of the run has a request in flight to it, in any download. */
  lemma NeverAskedAfterClose(c: Suite, cat: map<bytes, Body>, states: seq<Node>, events: seq<Event>,
                             p: Peer, j: nat, m: nat)
    requires Run(c, cat, states, events) && j < m < |states|
    requires events[j] == Closed(p) && p < |states[j].net.ids|
    ensures forall f, i :: f in states[m].downloads && i in states[m].downloads[f].inFlight ==>
              states[m].downloads[f].inFlight[i] != p
  {
    LeftForGood(c, cat, states, events, p, j, m);
    RunKeepsInv(c, cat, states, events, m);
    forall f | f in states[m].downloads
      ensures forall i :: i in states[m].downloads[f].inFlight ==> states[m].downloads[f].inFlight[i] != p
    {
      assert Active(cat, states[m].net, states[m].store, f, states[m].downloads[f]);
      NotConnected(states[m].net, f, states[m].downloads[f], p);
    }
  }

  // ---- Announcements ----

  /** HAVE_PIECE adds one chunk to what its sender announced, which is otherwise kept, and so for everybody else. */
  lemma PieceHeard(c: Suite, n: Node, p: Peer, f: bytes, i: nat, n': Node)
    requires Next(c, n, GotPiece(p, f, i), n')
    ensures forall q: Peer, g, j :: Says(n'.net, g, q, j) <==> Says(n.net, g, q, j) || (q == p && g == f && j == i)
  {
    Heard(n.net, p, f, {i});
  }

  lemma Heard(net: Net, p: Peer, f: bytes, indices: set<nat>)
    ensures forall q: Peer, g, j ::
              Says(Announce(net, p, f, indices), g, q, j) <==> Says(net, g, q, j) || (q == p && g == f && j in indices)
  {}

  /**
   * HAVE adds exactly the set bits below the number of chunks, which the last manifest registered tells, or
   * else the store; for a file neither knows it is ignored.
   */
  lemma HaveHeard(c: Suite, n: Node, p: Peer, f: bytes, bf: S.bits, n': Node)
    requires Next(c, n, GotHave(p, f, bf), n')
    ensures f !in n.manifests && f !in n.store.files ==> n' == n
    ensures f in n.manifests || f in n.store.files ==>
              var nb := if f in n.manifests then n.manifests[f].nbChunks else n.store.files[f].nbChunks;
              forall q: Peer, g, j: nat :: Says(n'.net, g, q, j) <==>
                Says(n.net, g, q, j) || (q == p && g == f && j < nb && S.TestBit(bf, j))
  {
    if f in n.manifests || f in n.store.files {
      var nb := if f in n.manifests then n.manifests[f].nbChunks else n.store.files[f].nbChunks;
      S.ParsedBits(bf, nb);
      Heard(n.net, p, f, set i | i in S.ParseBitfield(bf, nb));
    }
  }

  // ---- Starting a download ----

  /** A new entry of the store has no chunk, and other entries stay. */
  lemma RegisteredHas(s: S.Store, b: Body)
    ensures b.fileId in S.RegisterStep(s, b).files && S.RegisterStep(s, b).disk == s.disk
    ensures forall f, i :: S.Has(S.RegisterStep(s, b), f, i) <==> S.Has(s, f, i)
  {}

  lemma MissingAre(s: S.Store, b: Body)
    ensures forall i: nat :: i in Missing(s, b) <==> i < b.nbChunks && !S.Has(s, b.fileId, i)
  {}

  /**
   * What a download wants when it starts: exactly the chunks of its manifest that the store lacks. If there
   * are any, it is active, with nothing marked and nothing settled. If the store has them all, it is not even
   * opened: its promise settles at once with a reassembled file.
   */
  lemma StartWants(c: Suite, cat: map<bytes, Body>, n: Node, b: Body, parallel: nat, n': Node)
    requires NodeInv(c, cat, n) && Agrees(cat, b) && Next(c, n, Start(b, parallel), n')
    ensures forall f, i :: S.Has(n'.store, f, i) <==> S.Has(n.store, f, i)
    ensures (exists i: nat :: i < b.nbChunks && !S.Has(n.store, b.fileId, i)) ==>
              && b.fileId in n'.downloads && n'.outcomes == n.outcomes
              && var d := n'.downloads[b.fileId];
                 && (forall i: nat :: i in d.needed <==> i < b.nbChunks && !S.Has(n.store, b.fileId, i))
                 && d.body == b && d.parallel == parallel && d.received + |d.needed| == b.nbChunks
                 && forall q: Peer, i :: !Bad(d, q, i)
    ensures (forall i: nat :: i < b.nbChunks ==> S.Has(n.store, b.fileId, i)) ==>
              && b.fileId !in n'.downloads
              && exists o: Outcome :: n'.outcomes == n.outcomes + [o] && o.fileId == b.fileId && OutcomeOk(c, cat, o)
  {
    var n1 := Opened(n, b, parallel);
    var d1 := n1.downloads[b.fileId];
    RegisteredHas(n.store, b);
    MissingAre(n1.store, b);
    RegisterKeeps(c, cat, n, b);
    OpenedInv(c, cat, Register(n, b), b, parallel);
    BelowSize(d1.needed, b.nbChunks);
    if d1.needed == {} {
      FinishOk(c, cat, n1, b.fileId);
      var o :| Finish(c, n1, b.fileId).outcomes == n1.outcomes + [o] && OutcomeOk(c, cat, o);
      FinishNames(c, n1, b.fileId, o);
      assert forall i: nat :: i < b.nbChunks ==> i !in d1.needed;
    } else {
      var i: nat :| i in d1.needed;
      ScheduledOnlyFlights(n1.net, b.fileId, d1, n'.downloads[b.fileId]);
    }
  }

  lemma FinishNames(c: Suite, n: Node, f: bytes, o: Outcome)
    requires f in n.downloads && Finish(c, n, f).outcomes == n.outcomes + [o]
    ensures o.fileId == f
  {
    assert Finish(c, n, f).outcomes[|n.outcomes|] == o;
  }

  /**
   * Seeding and then downloading the same file needs nobody: the promise settles at once, with the file
   * itself, unless two different byte strings with the same SHA-256 exist, which are then exhibited.
   */
  lemma SeededNeedsNobody(c: Suite, cat: map<bytes, Body>, n: Node, n1: Node, n2: Node, file: bytes, chunkSize: pos,
                          filename: string, senderId: bytes, bufs: seq<bytes>, parallel: nat)
      returns (o: Outcome, x: bytes, y: bytes)
    requires var b := BodyOf(c, file, chunkSize, filename, senderId);
             && NodeInv(c, cat, n) && Agrees(cat, b) && Digested(b) && |bufs| == b.nbChunks
             && Next(c, n, Seed(b, bufs), n1) && Next(c, n1, Start(b, parallel), n2)
    requires forall i :: 0 <= i < |bufs| ==> i * chunkSize <= |file| && bufs[i] == Slice(file, chunkSize, i)
    ensures c.sha(file) !in n2.downloads && n2.outcomes == n.outcomes + [o] && o.Assembled? && o.fileId == c.sha(file)
    ensures (o.content == file && o.matches) || (x != y && c.sha(x) == c.sha(y))
  {
    var b := BodyOf(c, file, chunkSize, filename, senderId);
    SeedCompletes(c, cat, n, n1, file, chunkSize, filename, senderId, bufs);
    NextKeepsInv(c, cat, n, Seed(b, bufs), n1);
    assert FileMatches(c, cat[b.fileId], n1.store, b.fileId);
    S.CompleteIff(n1.store.files[b.fileId]);
    StartWants(c, cat, n1, b, parallel, n2);
    o :| n2.outcomes == n1.outcomes + [o] && o.fileId == b.fileId && OutcomeOk(c, cat, o);
    x, y := OutcomeIsFile(c, cat, o, file, chunkSize, filename, senderId);
  }

  // ---- CHUNK_DATA ----

  /**
   * A chunk is genuine if it belongs to the file, the manifest gives its digest, its bytes have that digest,
   * and the sender signed the identifier, the index and the digest it names, which is that one.
   */
  predicate Genuine(c: Suite, b: Body, senderId: bytes, m: Data) {
    && m.idx < |b.chunks| && m.idx < U32
    && b.chunks[m.idx].hash != [] && c.sha(m.data) == b.chunks[m.idx].hash && m.chunkHash == b.chunks[m.idx].hash
    && c.verify(m.signature, m.fileId + Put32(m.idx) + m.chunkHash, senderId)
  }

  /** Exactly a genuine chunk is taken: stored as it came, and wanted no more. */
  lemma GenuineTaken(c: Suite, cat: map<bytes, Body>, n: Node, p: Peer, m: Data, n': Node)
    requires NodeInv(c, cat, n) && p < |n.net.ids| && m.fileId in n.downloads && Next(c, n, GotData(p, m), n')
    requires Genuine(c, n.downloads[m.fileId].body, n.net.ids[p], m)
    ensures forall f, i :: S.Has(n'.store, f, i) <==> S.Has(n.store, f, i) || (f == m.fileId && i == m.idx)
    ensures n'.store.disk == n.store.disk[(m.fileId, m.idx) := m.data]
    ensures var d := n.downloads[m.fileId];
            && (m.fileId !in n'.downloads <==> d.needed <= {m.idx})
            && (m.fileId in n'.downloads ==>
                  var d' := n'.downloads[m.fileId];
                  d'.needed == d.needed - {m.idx} && d'.bad == d.bad && d'.received == d.received + 1)
    ensures forall f :: f in n.downloads && f != m.fileId ==> f in n'.downloads && n'.downloads[f] == n.downloads[f]
  {
    var f, d := m.fileId, n.downloads[m.fileId];
    assert Active(cat, n.net, n.store, f, d);
    StoresChunk(c, cat, n.store, f, d.body, m.idx, m.data);
    SettledAfter(c, Accept(c, n, m), f, n');
  }

  /** What settling or rescheduling a download leaves alone. */
  lemma SettledAfter(c: Suite, n: Node, f: bytes, n': Node)
    requires f in n.downloads
    requires if n.downloads[f].needed == {} then n' == Finish(c, n, f) else Rescheduled(n, f, n')
    ensures n'.store == n.store && (f !in n'.downloads <==> n.downloads[f].needed == {})
    ensures f in n'.downloads ==> n'.downloads[f] == n.downloads[f].(inFlight := n'.downloads[f].inFlight)
    ensures forall g :: g in n.downloads && g != f ==> g in n'.downloads && n'.downloads[g] == n.downloads[g]
  {
    if n.downloads[f].needed != {} {
      ScheduledOnlyFlights(n.net, f, n.downloads[f], n'.downloads[f]);
    }
  }

  /** The bytes of a chunk are stored under its index, and nothing else changes. */
  lemma StoresChunk(c: Suite, cat: map<bytes, Body>, s: S.Store, f: bytes, b: Body, i: nat, data: bytes)
    requires StoreMatches(c, cat, s) && f in s.files && f in cat && b == cat[f] && i < |b.chunks|
    requires c.sha(data) == b.chunks[i].hash
    ensures var s' := S.PutStep(c.sha, s, f, i, data, b.chunks[i].hash).0;
            && s'.disk == s.disk[(f, i) := data]
            && forall g, j :: S.Has(s', g, j) <==> S.Has(s, g, j) || (g == f && j == i)
  {
    assert FileMatches(c, cat[f], s, f);
    S.PutKeepsInv(c.sha, s, f, i, data, b.chunks[i].hash);
  }

  /** Any other chunk is refused: nothing is stored, it stays wanted, and exactly its sender is marked for it. */
  lemma ForgedRefused(c: Suite, n: Node, p: Peer, m: Data, n': Node)
    requires p < |n.net.ids| && m.fileId in n.downloads && Next(c, n, GotData(p, m), n')
    requires !Genuine(c, n.downloads[m.fileId].body, n.net.ids[p], m)
    ensures n'.store == n.store && n'.outcomes == n.outcomes && n'.downloads.Keys == n.downloads.Keys
    ensures var d, d' := n.downloads[m.fileId], n'.downloads[m.fileId];
            && d'.needed == d.needed && d'.received == d.received
            && forall q: Peer, i :: Bad(d', q, i) <==> Bad(d, q, i) || (q == p && i == m.idx)
    ensures forall f :: f in n.downloads && f != m.fileId ==> n'.downloads[f] == n.downloads[f]
  {
    var n1 := Refuse(n, p, m);
    ScheduledOnlyFlights(n1.net, m.fileId, n1.downloads[m.fileId], n'.downloads[m.fileId]);
  }

  /** A chunk is served exactly when it is indexed and on disk: its bytes, their digest, signed with file and index. */
  lemma ServesExactly(c: Suite, sign: bytes -> bytes, s: S.Store, f: bytes, i: nat)
    requires i < U32
    ensures Serve(c, sign, s, f, i).Some? <==> S.Has(s, f, i) && (f, i) in s.disk
    ensures Serve(c, sign, s, f, i).Some? ==>
              var m, data := Serve(c, sign, s, f, i).value, s.disk[(f, i)];
              m == Data(f, i, c.sha(data), sign(f + Put32(i) + c.sha(data)), data)
  {}

  // ---- Manifests ----

  /** The sum of the chunk sizes. */
  function SumOfSizes(chunks: seq<ChunkInfo>): nat {
    if chunks == [] then 0 else chunks[0].size + SumOfSizes(chunks[1..])
  }

  lemma {:induction false} SumOfSizesSnoc(chunks: seq<ChunkInfo>, x: ChunkInfo)
    ensures SumOfSizes(chunks + [x]) == SumOfSizes(chunks) + x.size
  {
    if chunks == [] {
      assert [x][1..] == [];
    } else {
      CutFront(chunks, [x], 1);
      SumOfSizesSnoc(chunks[1..], x);
    }
  }

  lemma {:induction false} TotalIsSum(chunks: seq<ChunkInfo>)
    ensures TotalSize(chunks) == SumOfSizes(chunks)
  {
    if chunks != [] {
      var front, last := chunks[..|chunks| - 1], chunks[|chunks| - 1];
      TotalIsSum(front);
      SumOfSizesSnoc(front, last);
      assert chunks == front + [last];
    }
  }

  /**
   * Exactly the manifests with an identifier, as many chunk entries as they claim, sizes that add up to that
   * of the file, and the sender's signature over the digest of their text are registered; others change
   * nothing. The store makes an entry for a file new to it and keeps the one it has.
   */
  lemma ManifestTaken(c: Suite, n: Node, m: Manifest, n': Node)
    requires Next(c, n, GotManifest(m), n')
    ensures var b := m.body;
            var sound := b.fileId != [] && |b.chunks| == b.nbChunks && SumOfSizes(b.chunks) == b.size
                         && c.verify(m.signature, c.sha(c.json(b)), b.senderId);
            && (!sound ==> n' == n)
            && (sound ==>
                  && b.fileId in n'.manifests && n'.manifests[b.fileId] == b
                  && (forall f :: f != b.fileId ==> (f in n'.manifests <==> f in n.manifests))
                  && (forall f :: f != b.fileId && f in n.manifests ==> n'.manifests[f] == n.manifests[f])
                  && b.fileId in n'.store.files
                  && (b.fileId in n.store.files ==> n'.store == n.store)
                  && (b.fileId !in n.store.files ==>
                        n'.store.files[b.fileId] == S.FileIndex(b.filename, b.size, b.chunkSize, b.nbChunks, []))
                  && n'.net == n.net && n'.downloads == n.downloads && n'.outcomes == n.outcomes)
  {
    TotalIsSum(m.body.chunks);
  }
}
