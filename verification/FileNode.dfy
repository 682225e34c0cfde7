/**
 * The file node (src/file/fileNode.js) as a state machine: its sessions, what peers announced, its
 * downloads and its store, and what each event does to them.
 */
module FileNode {
  import opened Bytes
  import opened Manifest
  import opened Download
  import S = ChunkStore

  datatype Outcome =
    | Assembled(fileId: bytes, content: bytes, digest: bytes, matches: bool)
    | Rejected(fileId: bytes)

  datatype Node = Node(net: Net, manifests: map<bytes, Body>, downloads: map<bytes, Download>,
                       store: S.Store, outcomes: seq<Outcome>)

  /** A CHUNK_DATA message. */
  datatype Data = Data(fileId: bytes, idx: nat, chunkHash: bytes, signature: bytes, data: bytes)

  /**
   * What a node reacts to. `bufs` are the buffers that reading the seeded file returned; peers are
   * named by the number of their session.
   */
  datatype Event =
    | Attach(id: bytes)
    | GotManifest(manifest: Manifest)
    | GotHave(p: Peer, f: bytes, bf: S.bits)
    | GotPiece(p: Peer, f: bytes, i: nat)
    | GotData(p: Peer, msg: Data)
    | Timeout(f: bytes, i: nat)
    | Tick(f: bytes)
    | Closed(p: Peer)
    | Start(body: Body, parallel: nat)
    | Seed(body: Body, bufs: seq<bytes>)

  // ---- Pieces of the transitions ----

  /** `_schedule` on one file: nothing to do without an active download. */
  ghost predicate Rescheduled(n: Node, f: bytes, n': Node) {
    if f !in n.downloads then n' == n
    else
      f in n'.downloads
      && Scheduled(n.net, f, n.downloads[f], n'.downloads[f])
      && n' == n.(downloads := n.downloads[f := n'.downloads[f]])
  }

  /** `registerManifest` */
  function Register(n: Node, b: Body): Node {
    n.(manifests := n.manifests[b.fileId := b], store := S.RegisterStep(n.store, b))
  }

  /** `_peerFileSet(p, f)` with some indices added. */
  function Announce(net: Net, p: Peer, f: bytes, indices: set<nat>): Net {
    var byFile := if p in net.have then net.have[p] else map[];
    var known := if f in byFile then byFile[f] else {};
    net.(have := net.have[p := byFile[f := known + indices]])
  }

  /** The number of chunks the node believes a file has. */
  function KnownChunks(n: Node, f: bytes): Option<nat> {
    if f in n.manifests then Some(n.manifests[f].nbChunks)
    else if f in n.store.files then Some(n.store.files[f].nbChunks)
    else None
  }

  function Unrequest(d: Download, i: nat): Download {
    d.(inFlight := d.inFlight - {i})
  }

  function MarkBad(d: Download, p: Peer, i: nat): Download {
    d.(bad := d.bad[i := (if i in d.bad then d.bad[i] else {}) + {p}])
  }

  /** `chunkSigMessage` */
  function SigMessage(f: bytes, i: nat, hash: bytes): bytes
    requires i < U32
  {
    f + Put32(i) + hash
  }

  /** The chunk came signed by its sender and with the bytes the manifest announces. */
  predicate Good(c: Suite, body: Body, senderId: bytes, m: Data) {
    && m.idx < |body.chunks| && m.idx < U32
    && body.chunks[m.idx].hash != []
    && c.verify(m.signature, SigMessage(m.fileId, m.idx, m.chunkHash), senderId)
    && c.sha(m.data) == body.chunks[m.idx].hash
    && m.chunkHash == body.chunks[m.idx].hash
  }

  /**
   * `_serveChunk` as far as the reply: `None` is the not-found acknowledgement, or the throw of a read
   * that finds no file.
   */
  function Serve(c: Suite, sign: bytes -> bytes, s: S.Store, f: bytes, i: nat): Option<Data>
    requires i < U32
  {
    if !S.Has(s, f, i) || (f, i) !in s.disk then None
    else
      var data := s.disk[(f, i)];
      Some(Data(f, i, c.sha(data), sign(SigMessage(f, i, c.sha(data))), data))
  }

  /** `_complete`: reassembles, settles the promise and forgets the download. */
  ghost function Finish(c: Suite, n: Node, f: bytes): Node
    requires f in n.downloads
  {
    var outcome :=
      if S.Readable(n.store, f) then
        var content := Concat(S.StoredPieces(n.store.disk, f, n.store.files[f].nbChunks));
        Assembled(f, content, c.sha(content), c.sha(content) == n.downloads[f].body.fileId)
      else Rejected(f);
    n.(downloads := n.downloads - {f}, outcomes := n.outcomes + [outcome])
  }

  /** The store after `seed` has put the first `k` buffers. */
  function SeedStore(c: Suite, s: S.Store, b: Body, bufs: seq<bytes>, k: nat): S.Store
    requires k <= |bufs| && k <= |b.chunks|
  {
    if k == 0 then s
    else
      S.PutStep(c.sha, SeedStore(c, s, b, bufs, k - 1), b.fileId, k - 1, bufs[k - 1], b.chunks[k - 1].hash).0
  }

  /** The chunks a new download has to fetch. */
  function Missing(s: S.Store, b: Body): set<nat> {
    set i | 0 <= i < b.nbChunks && !S.Has(s, b.fileId, i)
  }

  /** The state right after a CHUNK_DATA that passed every check was stored. */
  function Accept(c: Suite, n: Node, m: Data): Node
    requires m.fileId in n.downloads && m.idx < |n.downloads[m.fileId].body.chunks|
  {
    var d := n.downloads[m.fileId];
    var (store, _) := S.PutStep(c.sha, n.store, m.fileId, m.idx, m.data, d.body.chunks[m.idx].hash);
    var d' := Unrequest(d, m.idx).(needed := d.needed - {m.idx}, received := d.received + 1);
    n.(store := store, downloads := n.downloads[m.fileId := d'])
  }

  /** The state right after a CHUNK_DATA that failed a check. */
  function Refuse(n: Node, p: Peer, m: Data): Node
    requires m.fileId in n.downloads
  {
    n.(downloads := n.downloads[m.fileId := MarkBad(Unrequest(n.downloads[m.fileId], m.idx), p, m.idx)])
  }

  function Detach(net: Net, p: Peer): Net {
    net.(sessions := net.sessions - {p}, have := net.have - {p})
  }

  /** The requests of a download without those made to `p`. */
  function DropPeer(d: Download, p: Peer): Download {
    d.(inFlight := map i | i in d.inFlight && d.inFlight[i] != p :: d.inFlight[i])
  }

  function NewDownload(s: S.Store, b: Body, parallel: nat): Download {
    var needed := Missing(s, b);
    var received := if |needed| <= b.nbChunks then b.nbChunks - |needed| else 0;
    Download(b, needed, map[], map[], parallel, received)
  }

  /** The state of a download that starts now, before its first scheduling. */
  function Opened(n: Node, b: Body, parallel: nat): Node {
    var n1 := Register(n, b);
    n1.(downloads := n1.downloads[b.fileId := NewDownload(n1.store, b, parallel)])
  }

  // ---- The transition relation ----

  ghost predicate Next(c: Suite, n: Node, e: Event, n': Node)
  {
    match e
    case Attach(id) =>
      n' == n.(net := AttachNet(n.net, id))
    case GotManifest(m) =>
      n' == if VerifyManifest(c, m) then Register(n, m.body) else n
    case GotHave(p, f, bf) =>
      if KnownChunks(n, f).None? then n' == n
      else
        var indices := S.ParseBitfield(bf, KnownChunks(n, f).value);
        Rescheduled(n.(net := Announce(n.net, p, f, set i | i in indices)), f, n')
    case GotPiece(p, f, i) =>
      Rescheduled(n.(net := Announce(n.net, p, f, {i})), f, n')
    case GotData(p, m) =>
      if m.fileId !in n.downloads || p >= |n.net.ids| then n' == n
      else if !Good(c, n.downloads[m.fileId].body, n.net.ids[p], m) then
        Rescheduled(Refuse(n, p, m), m.fileId, n')
      else if m.fileId !in n.store.files then
        // The write throws; only the request is gone. The invariant rules this out.
        n' == n.(downloads := n.downloads[m.fileId := Unrequest(n.downloads[m.fileId], m.idx)])
      else
        var n1 := Accept(c, n, m);
        if n1.downloads[m.fileId].needed == {} then n' == Finish(c, n1, m.fileId)
        else Rescheduled(n1, m.fileId, n')
    case Timeout(f, i) =>
      if f !in n.downloads || i !in n.downloads[f].inFlight then n' == n
      else Rescheduled(n.(downloads := n.downloads[f := Unrequest(n.downloads[f], i)]), f, n')
    case Tick(f) => Rescheduled(n, f, n')
    case Closed(p) =>
      && n' == n.(net := Detach(n.net, p), downloads := n'.downloads)
      && n'.downloads.Keys == n.downloads.Keys
      && forall f :: f in n.downloads ==> Scheduled(n'.net, f, DropPeer(n.downloads[f], p), n'.downloads[f])
    case Start(b, parallel) =>
      var n1 := Opened(n, b, parallel);
      if n1.downloads[b.fileId].needed == {} then n' == Finish(c, n1, b.fileId)
      else Rescheduled(n1, b.fileId, n')
    case Seed(b, bufs) =>
      |bufs| == |b.chunks|
      && n' == Register(n, b).(store := SeedStore(c, Register(n, b).store, b, bufs, |bufs|))
  }

  // ---- The invariant ----

  /** Manifests with the same identifier agree: `cat` names the one a run uses for each identifier. */
  ghost predicate Agrees(cat: map<bytes, Body>, b: Body) {
    b.fileId in cat && cat[b.fileId] == b && |b.chunks| == b.nbChunks
  }

  /** Every chunk is announced with a digest. */
  ghost predicate Digested(b: Body) {
    forall i :: 0 <= i < |b.chunks| ==> b.chunks[i].hash != []
  }

  /** What a run may contain: manifests that agree, and messages from peers that have been connected. */
  ghost predicate Enabled(c: Suite, cat: map<bytes, Body>, n: Node, e: Event) {
    match e
    case Attach(_) => true
    case GotManifest(m) => VerifyManifest(c, m) ==> Agrees(cat, m.body)
    case GotHave(p, _, _) => p < |n.net.ids|
    case GotPiece(p, _, _) => p < |n.net.ids|
    case GotData(p, _) => p < |n.net.ids|
    case Timeout(_, _) => true
    case Tick(_) => true
    case Closed(_) => true
    case Start(b, _) => Agrees(cat, b)
    case Seed(b, bufs) => Agrees(cat, b) && |bufs| == |b.chunks| && Digested(b)
  }

  /** The stored chunks of one file have the digests its manifest announces. */
  ghost predicate FileMatches(c: Suite, b: Body, s: S.Store, f: bytes)
    requires S.StoreInv(s) && f in s.files
  {
    && b.fileId == f && |b.chunks| == b.nbChunks == s.files[f].nbChunks
    && forall i :: i in s.files[f].chunks ==> c.sha(s.disk[(f, i)]) == b.chunks[i].hash
  }

  /** Every stored chunk has the digest its manifest announces. */
  ghost predicate StoreMatches(c: Suite, cat: map<bytes, Body>, s: S.Store) {
    S.StoreInv(s) && forall f :: f in s.files ==> f in cat && FileMatches(c, cat[f], s, f)
  }

  /** No file and no stored chunk is lost. */
  ghost predicate MoreStored(s: S.Store, s': S.Store) {
    s.files.Keys <= s'.files.Keys && forall f, i :: S.Has(s, f, i) ==> S.Has(s', f, i)
  }

  ghost predicate DownloadInv(cat: map<bytes, Body>, net: Net, s: S.Store, f: bytes, d: Download) {
    && f in cat && d.body == cat[f] && d.body.fileId == f && |d.body.chunks| == d.body.nbChunks
    && f in s.files
    && TableInv(net, f, d)
    && (forall i :: 0 <= i < d.body.nbChunks && i !in d.needed ==> S.Has(s, f, i))
    && d.received + |d.needed| >= d.body.nbChunks
  }

  ghost predicate Active(cat: map<bytes, Body>, net: Net, s: S.Store, f: bytes, d: Download) {
    DownloadInv(cat, net, s, f, d) && d.needed != {} && Conserves(net, f, d)
  }

  ghost predicate NodeInv(c: Suite, cat: map<bytes, Body>, n: Node) {
    && NetInv(n.net)
    && StoreMatches(c, cat, n.store)
    && (forall f :: f in n.manifests ==> Agrees(cat, n.manifests[f]) && n.manifests[f].fileId == f)
    && (forall f :: f in n.downloads ==> Active(cat, n.net, n.store, f, n.downloads[f]))
  }

  /** The constructor: a node over a store has no session, manifest or download yet. */
  function NewNode(s: S.Store): Node {
    Node(Net([], {}, map[]), map[], map[], s, [])
  }

  lemma NewNodeInv(c: Suite, cat: map<bytes, Body>, s: S.Store)
    requires StoreMatches(c, cat, s)
    ensures NodeInv(c, cat, NewNode(s))
  {}

  // ---- Each transition keeps the invariant ----

  /** Peers only learn more and nobody disconnects: eligibility is kept. */
  ghost predicate NetGrows(net: Net, net': Net) {
    net.sessions <= net'.sessions && forall f, p, i :: Says(net, f, p, i) ==> Says(net', f, p, i)
  }

  /** The invariants except that one download, `f`, may have idle chunks. */
  ghost predicate InvBut(c: Suite, cat: map<bytes, Body>, n: Node, f: bytes) {
    && NetInv(n.net)
    && StoreMatches(c, cat, n.store)
    && (forall g :: g in n.manifests ==> Agrees(cat, n.manifests[g]) && n.manifests[g].fileId == g)
    && (forall g :: g in n.downloads && g != f ==> Active(cat, n.net, n.store, g, n.downloads[g]))
    && (f in n.downloads ==> DownloadInv(cat, n.net, n.store, f, n.downloads[f]) && n.downloads[f].needed != {})
  }

  /** `_schedule` restores the invariant of its file and touches nothing else. */
  lemma RescheduledKeeps(c: Suite, cat: map<bytes, Body>, n: Node, f: bytes, n': Node)
    requires InvBut(c, cat, n, f) && Rescheduled(n, f, n')
    ensures NodeInv(c, cat, n')
    ensures n'.net == n.net && n'.store == n.store && n'.downloads.Keys == n.downloads.Keys
    ensures forall g :: g in n.downloads ==> Extends(n.downloads[g], n'.downloads[g])
  {
    if f in n.downloads {
      ScheduledActive(cat, n.net, n.store, f, n.downloads[f], n'.downloads[f]);
    }
    forall g | g in n'.downloads
      ensures Active(cat, n'.net, n'.store, g, n'.downloads[g]) && Extends(n.downloads[g], n'.downloads[g])
    {
      if g != f {
        assert n'.downloads[g] == n.downloads[g];
      }
    }
  }

  lemma ScheduledActive(cat: map<bytes, Body>, net: Net, s: S.Store, f: bytes, d: Download, d': Download)
    requires NetInv(net) && DownloadInv(cat, net, s, f, d) && d.needed != {} && Scheduled(net, f, d, d')
    ensures Active(cat, net, s, f, d') && Extends(d, d')
  {
    ScheduledKeeps(net, f, d, d');
  }

  lemma AnnounceGrows(net: Net, p: Peer, f: bytes, indices: set<nat>)
    requires NetInv(net) && p < |net.ids|
    ensures NetInv(Announce(net, p, f, indices)) && NetGrows(net, Announce(net, p, f, indices))
    ensures Announce(net, p, f, indices).sessions == net.sessions && Announce(net, p, f, indices).ids == net.ids
    ensures forall g, q, i :: g != f ==> (Says(Announce(net, p, f, indices), g, q, i) <==> Says(net, g, q, i))
  {}

  lemma GrowsKeepsTable(net: Net, net': Net, f: bytes, d: Download)
    requires TableInv(net, f, d) && NetGrows(net, net')
    ensures TableInv(net', f, d)
  {
    forall i | i in d.inFlight
      ensures Eligible(net', f, d, d.inFlight[i], i)
    {
      assert Eligible(net, f, d, d.inFlight[i], i);
    }
  }

  /** What peers say about other files does not matter to a download. */
  lemma OtherFileConserves(net: Net, net': Net, g: bytes, d: Download)
    requires Conserves(net, g, d) && net'.sessions == net.sessions
    requires forall q, i :: Says(net', g, q, i) ==> Says(net, g, q, i)
    ensures Conserves(net', g, d)
  {
    if |d.inFlight| < d.parallel {
      forall i | i in d.needed && i !in d.inFlight
        ensures !Servable(net', g, d, i)
      {
        assert forall p: Peer :: Eligible(net', g, d, p, i) ==> Eligible(net, g, d, p, i);
      }
    }
  }

  lemma AnnounceKeeps(c: Suite, cat: map<bytes, Body>, n: Node, p: Peer, f: bytes, indices: set<nat>)
    requires NodeInv(c, cat, n) && p < |n.net.ids|
    ensures InvBut(c, cat, n.(net := Announce(n.net, p, f, indices)), f)
  {
    var net' := Announce(n.net, p, f, indices);
    AnnounceGrows(n.net, p, f, indices);
    forall g | g in n.downloads
      ensures DownloadInv(cat, net', n.store, g, n.downloads[g])
      ensures g != f ==> Conserves(net', g, n.downloads[g])
    {
      assert Active(cat, n.net, n.store, g, n.downloads[g]);
      GrowsKeepsTable(n.net, net', g, n.downloads[g]);
      if g != f {
        OtherFileConserves(n.net, net', g, n.downloads[g]);
      }
    }
  }

  /** A new session announces nothing yet. */
  function AttachNet(net: Net, id: bytes): Net {
    Net(net.ids + [id], net.sessions + {|net.ids|}, net.have[|net.ids| := map[]])
  }

  lemma AttachGrows(net: Net, id: bytes)
    requires NetInv(net)
    ensures NetInv(AttachNet(net, id)) && NetGrows(net, AttachNet(net, id))
    ensures forall f, p, i :: Says(AttachNet(net, id), f, p, i) ==> Says(net, f, p, i) && p != |net.ids|
  {}

  lemma AttachKeepsOne(cat: map<bytes, Body>, net: Net, s: S.Store, f: bytes, d: Download, id: bytes)
    requires NetInv(net) && Active(cat, net, s, f, d)
    ensures Active(cat, AttachNet(net, id), s, f, d)
  {
    var net' := AttachNet(net, id);
    AttachGrows(net, id);
    GrowsKeepsTable(net, net', f, d);
    if |d.inFlight| < d.parallel {
      forall i | i in d.needed && i !in d.inFlight
        ensures !Servable(net', f, d, i)
      {
        assert forall p: Peer :: Eligible(net', f, d, p, i) ==> Eligible(net, f, d, p, i);
      }
    }
  }

  lemma AttachKeeps(c: Suite, cat: map<bytes, Body>, n: Node, id: bytes, n': Node)
    requires NodeInv(c, cat, n) && Next(c, n, Attach(id), n')
    ensures NodeInv(c, cat, n')
  {
    AttachGrows(n.net, id);
    forall f | f in n.downloads
      ensures Active(cat, n'.net, n'.store, f, n'.downloads[f])
    {
      AttachKeepsOne(cat, n.net, n.store, f, n.downloads[f], id);
    }
  }

  /** A store that only gained chunks keeps every download's invariant. */
  lemma MoreStoredKeeps(cat: map<bytes, Body>, net: Net, s: S.Store, s': S.Store, f: bytes, d: Download)
    requires DownloadInv(cat, net, s, f, d) && MoreStored(s, s')
    ensures DownloadInv(cat, net, s', f, d)
  {}

  lemma StoreGrowsKeeps(c: Suite, cat: map<bytes, Body>, n: Node, s': S.Store)
    requires NodeInv(c, cat, n) && StoreMatches(c, cat, s') && MoreStored(n.store, s')
    ensures NodeInv(c, cat, n.(store := s'))
  {
    forall f | f in n.downloads
      ensures Active(cat, n.net, s', f, n.downloads[f])
    {
      MoreStoredKeeps(cat, n.net, n.store, s', f, n.downloads[f]);
    }
  }

  lemma RegisterStepMatches(c: Suite, cat: map<bytes, Body>, s: S.Store, b: Body)
    requires StoreMatches(c, cat, s) && Agrees(cat, b)
    ensures StoreMatches(c, cat, S.RegisterStep(s, b)) && MoreStored(s, S.RegisterStep(s, b))
    ensures b.fileId in S.RegisterStep(s, b).files
  {
    var s' := S.RegisterStep(s, b);
    S.RegisterKeepsInv(s, b);
    forall f | f in s'.files
      ensures f in cat && FileMatches(c, cat[f], s', f)
    {
      if f in s.files {
        assert FileMatches(c, cat[f], s, f);
      }
    }
  }

  lemma RegisterKeeps(c: Suite, cat: map<bytes, Body>, n: Node, b: Body)
    requires NodeInv(c, cat, n) && Agrees(cat, b)
    ensures NodeInv(c, cat, Register(n, b)) && b.fileId in Register(n, b).store.files
  {
    RegisterStepMatches(c, cat, n.store, b);
    StoreGrowsKeeps(c, cat, n, S.RegisterStep(n.store, b));
  }

  lemma PutKeepsMatches(c: Suite, cat: map<bytes, Body>, s: S.Store, f: bytes, i: nat, data: bytes)
    requires StoreMatches(c, cat, s) && f in s.files && f in cat && i < |cat[f].chunks| && cat[f].chunks[i].hash != []
    ensures var s' := S.PutStep(c.sha, s, f, i, data, cat[f].chunks[i].hash).0;
            && StoreMatches(c, cat, s') && MoreStored(s, s')
            && (c.sha(data) == cat[f].chunks[i].hash ==> S.Has(s', f, i))
  {
    var s' := S.PutStep(c.sha, s, f, i, data, cat[f].chunks[i].hash).0;
    assert FileMatches(c, cat[f], s, f);
    S.PutKeepsInv(c.sha, s, f, i, data, cat[f].chunks[i].hash);
    forall g | g in s'.files
      ensures g in cat && FileMatches(c, cat[g], s', g)
    {
      assert FileMatches(c, cat[g], s, g);
      forall j | j in s'.files[g].chunks
        ensures c.sha(s'.disk[(g, j)]) == cat[g].chunks[j].hash
      {
        assert S.Has(s', g, j);
      }
    }
  }

  /** Fewer requests, each still allowed, keep the table sound. */
  lemma FewerKeepsTable(net: Net, f: bytes, d: Download, net': Net, d': Download)
    requires TableInv(net, f, d)
    requires d'.body == d.body && d'.parallel == d.parallel && d'.needed <= d.needed
    requires d'.inFlight.Keys <= d.inFlight.Keys * d'.needed
    requires forall k :: k in d'.inFlight ==>
               d'.inFlight[k] == d.inFlight[k] && (Eligible(net, f, d, d.inFlight[k], k) ==> Eligible(net', f, d', d.inFlight[k], k))
    ensures TableInv(net', f, d')
  {
    SubsetSize(d'.inFlight.Keys, d.inFlight.Keys);
  }

  lemma UnrequestKeeps(cat: map<bytes, Body>, net: Net, s: S.Store, f: bytes, d: Download, i: nat)
    requires DownloadInv(cat, net, s, f, d)
    ensures DownloadInv(cat, net, s, f, Unrequest(d, i))
  {
    FewerKeepsTable(net, f, d, net, Unrequest(d, i));
  }

  lemma MarkBadKeeps(cat: map<bytes, Body>, net: Net, s: S.Store, f: bytes, d: Download, p: Peer, i: nat)
    requires DownloadInv(cat, net, s, f, d) && i !in d.inFlight
    ensures DownloadInv(cat, net, s, f, MarkBad(d, p, i))
  {
    FewerKeepsTable(net, f, d, net, MarkBad(d, p, i));
  }

  /** A chunk that is not in flight leaves the wanted set once it is stored. */
  lemma FulfilKeeps(cat: map<bytes, Body>, net: Net, s: S.Store, f: bytes, d: Download, i: nat)
    requires DownloadInv(cat, net, s, f, d) && i !in d.inFlight && S.Has(s, f, i)
    ensures DownloadInv(cat, net, s, f, d.(needed := d.needed - {i}, received := d.received + 1))
  {
    var d' := d.(needed := d.needed - {i}, received := d.received + 1);
    SubsetSize(d.needed, d'.needed + {i});
    FewerKeepsTable(net, f, d, net, d');
  }

  /** Replacing one download by a sound one leaves at most that one to be scheduled. */
  lemma ReplaceKeeps(c: Suite, cat: map<bytes, Body>, n: Node, f: bytes, d: Download)
    requires NodeInv(c, cat, n) && DownloadInv(cat, n.net, n.store, f, d) && d.needed != {}
    ensures InvBut(c, cat, n.(downloads := n.downloads[f := d]), f)
  {}

  lemma RefuseKeeps(c: Suite, cat: map<bytes, Body>, n: Node, p: Peer, m: Data)
    requires NodeInv(c, cat, n) && m.fileId in n.downloads
    ensures InvBut(c, cat, Refuse(n, p, m), m.fileId)
  {
    var f, d := m.fileId, n.downloads[m.fileId];
    assert Active(cat, n.net, n.store, f, d);
    UnrequestKeeps(cat, n.net, n.store, f, d, m.idx);
    MarkBadKeeps(cat, n.net, n.store, f, Unrequest(d, m.idx), p, m.idx);
    ReplaceKeeps(c, cat, n, f, MarkBad(Unrequest(d, m.idx), p, m.idx));
  }

  lemma AcceptKeeps(c: Suite, cat: map<bytes, Body>, n: Node, p: Peer, m: Data)
    requires NodeInv(c, cat, n) && m.fileId in n.downloads && p < |n.net.ids|
    requires Good(c, n.downloads[m.fileId].body, n.net.ids[p], m)
    ensures var n1, f := Accept(c, n, m), m.fileId;
            && f in n.store.files
            && NodeInv(c, cat, n.(store := n1.store))
            && DownloadInv(cat, n1.net, n1.store, f, n1.downloads[f])
            && n1 == n.(store := n1.store).(downloads := n.downloads[f := n1.downloads[f]])
  {
    var f, d, s' := m.fileId, n.downloads[m.fileId], Accept(c, n, m).store;
    assert Active(cat, n.net, n.store, f, d);
    PutKeepsMatches(c, cat, n.store, f, m.idx, m.data);
    StoreGrowsKeeps(c, cat, n, s');
    MoreStoredKeeps(cat, n.net, n.store, s', f, d);
    UnrequestKeeps(cat, n.net, s', f, d, m.idx);
    FulfilKeeps(cat, n.net, s', f, Unrequest(d, m.idx), m.idx);
  }

  /** When nothing is needed any more the file can be reassembled: the promise is never rejected. */
  lemma FinishAssembles(c: Suite, cat: map<bytes, Body>, n: Node, f: bytes)
    requires StoreMatches(c, cat, n.store) && f in n.downloads
    requires DownloadInv(cat, n.net, n.store, f, n.downloads[f]) && n.downloads[f].needed == {}
    ensures S.Readable(n.store, f)
  {
    S.CompleteIsReadable(n.store, f);
    S.CompleteIff(n.store.files[f]);
    forall i | 0 <= i < n.store.files[f].nbChunks
      ensures i in n.store.files[f].chunks
    {
      assert S.Has(n.store, f, i);
    }
  }

  /**
   * Why manifests with one identifier have to agree: the store keeps the chunk count of the first one it
   * saw. With exactly the chunks of another manifest stored, reassembly succeeds if and only if the two
   * counts are the same.
   */
  lemma AgreementNeeded(s: S.Store, b: Body)
    requires b.fileId in s.files && S.Increasing(s.files[b.fileId].chunks)
    requires forall i :: i in s.files[b.fileId].chunks <==> 0 <= i < b.nbChunks
    requires forall i :: 0 <= i < b.nbChunks ==> (b.fileId, i) in s.disk
    ensures S.Readable(s, b.fileId) <==> s.files[b.fileId].nbChunks == b.nbChunks
  {
    var fi := s.files[b.fileId];
    S.CompleteIff(fi.(nbChunks := b.nbChunks));
  }

  /** A download that replaces an old one, or opens, is finished at once or scheduled. */
  lemma SettledKeeps(c: Suite, cat: map<bytes, Body>, n: Node, f: bytes, d: Download, n': Node)
    requires NodeInv(c, cat, n) && DownloadInv(cat, n.net, n.store, f, d)
    requires var n1 := n.(downloads := n.downloads[f := d]);
             if d.needed == {} then n' == Finish(c, n1, f) else Rescheduled(n1, f, n')
    ensures NodeInv(c, cat, n')
  {
    if d.needed != {} {
      ReplaceKeeps(c, cat, n, f, d);
      RescheduledKeeps(c, cat, n.(downloads := n.downloads[f := d]), f, n');
    }
  }

  lemma DataKeeps(c: Suite, cat: map<bytes, Body>, n: Node, p: Peer, m: Data, n': Node)
    requires NodeInv(c, cat, n) && p < |n.net.ids| && Next(c, n, GotData(p, m), n')
    ensures NodeInv(c, cat, n')
  {
    var f := m.fileId;
    if f in n.downloads {
      var d := n.downloads[f];
      if !Good(c, d.body, n.net.ids[p], m) {
        RefuseKeeps(c, cat, n, p, m);
        RescheduledKeeps(c, cat, Refuse(n, p, m), f, n');
      } else {
        AcceptKeeps(c, cat, n, p, m);
        var n1 := Accept(c, n, m);
        SettledKeeps(c, cat, n.(store := n1.store), f, n1.downloads[f], n');
      }
    }
  }

  lemma TimeoutKeeps(c: Suite, cat: map<bytes, Body>, n: Node, f: bytes, i: nat, n': Node)
    requires NodeInv(c, cat, n) && Next(c, n, Timeout(f, i), n')
    ensures NodeInv(c, cat, n')
  {
    if f in n.downloads && i in n.downloads[f].inFlight {
      var d := n.downloads[f];
      assert Active(cat, n.net, n.store, f, d);
      UnrequestKeeps(cat, n.net, n.store, f, d, i);
      ReplaceKeeps(c, cat, n, f, Unrequest(d, i));
      RescheduledKeeps(c, cat, n.(downloads := n.downloads[f := Unrequest(d, i)]), f, n');
    }
  }

  lemma DropPeerKeeps(cat: map<bytes, Body>, net: Net, s: S.Store, f: bytes, d: Download, p: Peer)
    requires DownloadInv(cat, net, s, f, d)
    ensures DownloadInv(cat, Detach(net, p), s, f, DropPeer(d, p))
  {
    var d' := DropPeer(d, p);
    forall k | k in d'.inFlight && Eligible(net, f, d, d.inFlight[k], k)
      ensures Eligible(Detach(net, p), f, d', d.inFlight[k], k)
    {
      assert d.inFlight[k] != p;
    }
    FewerKeepsTable(net, f, d, Detach(net, p), d');
  }

  lemma ClosedKeeps(c: Suite, cat: map<bytes, Body>, n: Node, p: Peer, n': Node)
    requires NodeInv(c, cat, n) && Next(c, n, Closed(p), n')
    ensures NodeInv(c, cat, n')
  {
    forall f | f in n'.downloads
      ensures Active(cat, n'.net, n'.store, f, n'.downloads[f])
    {
      assert Active(cat, n.net, n.store, f, n.downloads[f]);
      DropPeerKeeps(cat, n.net, n.store, f, n.downloads[f], p);
      ScheduledActive(cat, n'.net, n.store, f, DropPeer(n.downloads[f], p), n'.downloads[f]);
    }
  }

  lemma OpenedInv(c: Suite, cat: map<bytes, Body>, n: Node, b: Body, parallel: nat)
    requires NodeInv(c, cat, n) && Agrees(cat, b) && b.fileId in n.store.files
    ensures DownloadInv(cat, n.net, n.store, b.fileId, NewDownload(n.store, b, parallel))
  {
    BelowSize(Missing(n.store, b), b.nbChunks);
  }

  lemma StartKeeps(c: Suite, cat: map<bytes, Body>, n: Node, b: Body, parallel: nat, n': Node)
    requires NodeInv(c, cat, n) && Enabled(c, cat, n, Start(b, parallel)) && Next(c, n, Start(b, parallel), n')
    ensures NodeInv(c, cat, n')
  {
    var n0, d := Register(n, b), Opened(n, b, parallel).downloads[b.fileId];
    RegisterKeeps(c, cat, n, b);
    OpenedInv(c, cat, n0, b, parallel);
    SettledKeeps(c, cat, n0, b.fileId, d, n');
  }

  lemma {:induction false} SeedStoreKeeps(c: Suite, cat: map<bytes, Body>, s: S.Store, b: Body, bufs: seq<bytes>, k: nat)
    requires StoreMatches(c, cat, s) && Agrees(cat, b) && Digested(b) && b.fileId in s.files
    requires k <= |bufs| && k <= |b.chunks|
    ensures StoreMatches(c, cat, SeedStore(c, s, b, bufs, k)) && MoreStored(s, SeedStore(c, s, b, bufs, k))
  {
    if k > 0 {
      SeedStoreKeeps(c, cat, s, b, bufs, k - 1);
      SeedOneKeeps(c, cat, s, b, k - 1, bufs[k - 1], SeedStore(c, s, b, bufs, k - 1), SeedStore(c, s, b, bufs, k));
    }
  }

  lemma SeedOneKeeps(c: Suite, cat: map<bytes, Body>, s: S.Store, b: Body, i: nat, data: bytes, s1: S.Store, s2: S.Store)
    requires StoreMatches(c, cat, s1) && MoreStored(s, s1) && Agrees(cat, b) && Digested(b) && b.fileId in s.files
    requires i < |b.chunks| && s2 == S.PutStep(c.sha, s1, b.fileId, i, data, b.chunks[i].hash).0
    ensures StoreMatches(c, cat, s2) && MoreStored(s, s2) && MoreStored(s1, s2)
    ensures c.sha(data) == b.chunks[i].hash ==> S.Has(s2, b.fileId, i)
  {
    PutGrows(c, cat, s1, b, i, data);
  }

  /** One buffer is put: the store still matches, nothing is lost, and the right bytes are stored. */
  lemma PutGrows(c: Suite, cat: map<bytes, Body>, s: S.Store, b: Body, i: nat, data: bytes)
    requires StoreMatches(c, cat, s) && Agrees(cat, b) && Digested(b) && b.fileId in s.files && i < |b.chunks|
    ensures var s' := S.PutStep(c.sha, s, b.fileId, i, data, b.chunks[i].hash).0;
            && StoreMatches(c, cat, s') && MoreStored(s, s')
            && (c.sha(data) == b.chunks[i].hash ==> S.Has(s', b.fileId, i))
  {
    PutKeepsMatches(c, cat, s, b.fileId, i, data);
  }

  /** What the first buffers stored stays. */
  lemma {:induction false} SeedGrows(c: Suite, cat: map<bytes, Body>, s: S.Store, b: Body, bufs: seq<bytes>, i: nat, k: nat)
    requires StoreMatches(c, cat, s) && Agrees(cat, b) && Digested(b) && b.fileId in s.files
    requires i <= k <= |bufs| && k <= |b.chunks|
    ensures MoreStored(SeedStore(c, s, b, bufs, i), SeedStore(c, s, b, bufs, k))
    decreases k
  {
    if i < k {
      SeedGrows(c, cat, s, b, bufs, i, k - 1);
      SeedStoreKeeps(c, cat, s, b, bufs, i);
      SeedStoreKeeps(c, cat, s, b, bufs, k - 1);
      SeedOneKeeps(c, cat, SeedStore(c, s, b, bufs, i), b, k - 1, bufs[k - 1],
                   SeedStore(c, s, b, bufs, k - 1), SeedStore(c, s, b, bufs, k));
    }
  }

  /** Every buffer with the announced digest is stored. */
  lemma SeedStores(c: Suite, cat: map<bytes, Body>, s: S.Store, b: Body, bufs: seq<bytes>, k: nat, i: nat)
    requires StoreMatches(c, cat, s) && Agrees(cat, b) && Digested(b) && b.fileId in s.files
    requires i < k <= |bufs| && k <= |b.chunks| && c.sha(bufs[i]) == b.chunks[i].hash
    ensures S.Has(SeedStore(c, s, b, bufs, k), b.fileId, i)
  {
    SeedStoreKeeps(c, cat, s, b, bufs, i);
    SeedOneKeeps(c, cat, s, b, i, bufs[i], SeedStore(c, s, b, bufs, i), SeedStore(c, s, b, bufs, i + 1));
    SeedGrows(c, cat, s, b, bufs, i + 1, k);
  }

  lemma SeedKeeps(c: Suite, cat: map<bytes, Body>, n: Node, b: Body, bufs: seq<bytes>, n': Node)
    requires NodeInv(c, cat, n) && Enabled(c, cat, n, Seed(b, bufs)) && Next(c, n, Seed(b, bufs), n')
    ensures NodeInv(c, cat, n')
  {
    RegisterKeeps(c, cat, n, b);
    var n1 := Register(n, b);
    SeedStoreKeeps(c, cat, n1.store, b, bufs, |bufs|);
    StoreGrowsKeeps(c, cat, n1, n'.store);
  }

  /**
   * The in-flight table invariant and work conservation. Every event keeps, for every active download:
   * requests only for wanted chunks, at most `parallel` of them, each to a connected peer that announced
   * the chunk and never sent a bad copy of it; every chunk not wanted is stored; and no chunk that some
   * peer could serve is left idle while there is room for a request.
   */
  lemma NextKeepsInv(c: Suite, cat: map<bytes, Body>, n: Node, e: Event, n': Node)
    requires NodeInv(c, cat, n) && Enabled(c, cat, n, e) && Next(c, n, e, n')
    ensures NodeInv(c, cat, n')
  {
    match e
    case Attach(id) => AttachKeeps(c, cat, n, id, n');
    case GotManifest(m) =>
      if VerifyManifest(c, m) {
        RegisterKeeps(c, cat, n, m.body);
      }
    case GotHave(p, f, bf) =>
      if KnownChunks(n, f).Some? {
        var indices := set i | i in S.ParseBitfield(bf, KnownChunks(n, f).value);
        AnnounceKeeps(c, cat, n, p, f, indices);
        RescheduledKeeps(c, cat, n.(net := Announce(n.net, p, f, indices)), f, n');
      }
    case GotPiece(p, f, i) =>
      AnnounceKeeps(c, cat, n, p, f, {i});
      RescheduledKeeps(c, cat, n.(net := Announce(n.net, p, f, {i})), f, n');
    case GotData(p, m) => DataKeeps(c, cat, n, p, m, n');
    case Timeout(f, i) => TimeoutKeeps(c, cat, n, f, i, n');
    case Tick(f) => RescheduledKeeps(c, cat, n, f, n');
    case Closed(p) => ClosedKeeps(c, cat, n, p, n');
    case Start(b, parallel) => StartKeeps(c, cat, n, b, parallel, n');
    case Seed(b, bufs) => SeedKeeps(c, cat, n, b, bufs, n');
  }
}
