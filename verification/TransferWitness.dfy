/** Runs of a file node that show what its comments promise and its code does not do. */
module TransferWitness {
  import opened Bytes
  import opened Manifest
  import opened Download
  import opened FileNode
  import opened Transfer
  import S = ChunkStore

  const EMPTY: S.Store := S.Store(map[], map[])

  lemma Overwrite<K, V>(key: K, v: V, w: V)
    ensures map[key := v][key := w] == map[key := w]
  {}

  lemma RescheduledTo(n: Node, f: bytes, d: Download)
    requires f in n.downloads && Scheduled(n.net, f, n.downloads[f], d)
    ensures Rescheduled(n, f, n.(downloads := n.downloads[f := d]))
  {}

  // ---- A slow peer is asked again although another one could serve ----

  /** A file of one chunk. */
  function OneChunk(f: bytes, hash: bytes): Body {
    Body(f, "", 1, 1, 1, [ChunkInfo(0, hash, 1)], [])
  }

  /** Two peers, the first `told` of which have announced chunk 0 of `f`. */
  function TwoPeers(f: bytes, a: bytes, b: bytes, told: nat): Net {
    var known: map<bytes, set<nat>> := map[f := {0}];
    Net([a, b], {0, 1}, map[0 := if told > 0 then known else map[], 1 := if told > 1 then known else map[]])
  }

  /** The download of that file, with or without its chunk asked of the first peer. */
  function Fetching(f: bytes, hash: bytes, asked: bool): Download {
    Download(OneChunk(f, hash), {0}, if asked then map[0 := 0] else map[], map[], 1, 0)
  }

  function Fetcher(f: bytes, hash: bytes, a: bytes, b: bytes, told: nat): Node {
    var body := OneChunk(f, hash);
    Node(TwoPeers(f, a, b, told), map[f := body], map[f := Fetching(f, hash, told > 0)],
         S.RegisterStep(EMPTY, body), [])
  }

  lemma Counts(f: bytes, a: bytes, b: bytes, told: nat)
    requires told <= 2
    ensures Count(TwoPeers(f, a, b, told), f, 0) == told
  {
    var net := TwoPeers(f, a, b, told);
    assert CountUpTo(net, f, 0, 0) == 0;
    assert CountUpTo(net, f, 0, 1) == if told > 0 then 1 else 0;
    assert CountUpTo(net, f, 0, 2) == told;
  }

  lemma WhoCanServe(f: bytes, hash: bytes, a: bytes, b: bytes, told: nat)
    requires 1 <= told <= 2
    ensures PeersForChunk(TwoPeers(f, a, b, told), f, Fetching(f, hash, false), 0) == if told == 1 then [0] else [0, 1]
  {
    var net, d := TwoPeers(f, a, b, told), Fetching(f, hash, false);
    assert PeersUpTo(net, f, d, 0, 0) == [];
    assert PeersUpTo(net, f, d, 0, 1) == [0];
    assert PeersUpTo(net, f, d, 0, 2) == if told == 1 then [0] else [0, 1];
  }

  /** With the chunk not in flight, it is asked of the first peer. */
  lemma AskFirst(f: bytes, hash: bytes, a: bytes, b: bytes, told: nat)
    requires 1 <= told <= 2
    ensures Scheduled(TwoPeers(f, a, b, told), f, Fetching(f, hash, false), Fetching(f, hash, true))
  {
    var net, d := TwoPeers(f, a, b, told), Fetching(f, hash, false);
    Counts(f, a, b, told);
    WhoCanServe(f, hash, a, b, told);
    assert Candidates(net, f, d) == {0};
    FirstOfIdle(d, PeersForChunk(net, f, d, 0));
    ScheduledSingle(net, f, d, 0);
  }

  /** With nobody to ask, or the chunk in flight, scheduling changes nothing. */
  lemma AskNobody(f: bytes, hash: bytes, a: bytes, b: bytes, told: nat)
    requires told <= 2
    ensures Scheduled(TwoPeers(f, a, b, told), f, Fetching(f, hash, told > 0), Fetching(f, hash, told > 0))
  {
    Counts(f, a, b, told);
    ScheduledNone(TwoPeers(f, a, b, told), f, Fetching(f, hash, told > 0));
  }

  function Connected(a: bytes, b: bytes): Node {
    NewNode(EMPTY).(net := TwoPeers([], a, b, 0))
  }

  lemma FetcherStarts(c: Suite, f: bytes, hash: bytes, a: bytes, b: bytes)
    ensures Next(c, Connected(a, b), Start(OneChunk(f, hash), 1), Fetcher(f, hash, a, b, 0))
  {
    var body := OneChunk(f, hash);
    assert Missing(S.RegisterStep(EMPTY, body), body) == {0};
    assert Opened(Connected(a, b), body, 1) == Fetcher(f, hash, a, b, 0);
    AskNobody(f, hash, a, b, 0);
  }

  lemma Told(f: bytes, a: bytes, b: bytes, p: Peer)
    requires p < 2
    ensures Announce(TwoPeers(f, a, b, p), p, f, {0}) == TwoPeers(f, a, b, p + 1)
  {
    var nothing: map<bytes, set<nat>> := map[];
    var nobody: set<nat> := {};
    assert nobody + {0} == {0} && nothing[f := {0}] == map[f := {0}];
    assert Announce(TwoPeers(f, a, b, p), p, f, {0}).have == TwoPeers(f, a, b, p + 1).have;
  }

  /** A peer announces the chunk. */
  lemma FetcherHears(c: Suite, f: bytes, hash: bytes, a: bytes, b: bytes, p: Peer)
    requires p < 2
    ensures Next(c, Fetcher(f, hash, a, b, p), GotPiece(p, f, 0), Fetcher(f, hash, a, b, p + 1))
  {
    var n, d, d' := Fetcher(f, hash, a, b, p), Fetching(f, hash, p > 0), Fetching(f, hash, true);
    Told(f, a, b, p);
    if p == 0 {
      AskFirst(f, hash, a, b, 1);
    } else {
      AskNobody(f, hash, a, b, 2);
    }
    Overwrite(f, d, d');
    RescheduledTo(n.(net := TwoPeers(f, a, b, p + 1)), f, d');
  }

  lemma FetcherTimesOut(c: Suite, f: bytes, hash: bytes, a: bytes, b: bytes)
    ensures Next(c, Fetcher(f, hash, a, b, 2), Timeout(f, 0), Fetcher(f, hash, a, b, 2))
  {
    var n, idle, asked := Fetcher(f, hash, a, b, 2), Fetching(f, hash, false), Fetching(f, hash, true);
    AskFirst(f, hash, a, b, 2);
    assert Unrequest(asked, 0) == idle;
    Overwrite(f, asked, idle);
    Overwrite(f, idle, asked);
    RescheduledTo(n.(downloads := map[f := idle]), f, asked);
  }

  lemma TwoAttach(f: bytes, a: bytes, b: bytes)
    ensures AttachNet(AttachNet(NewNode(EMPTY).net, a), b) == TwoPeers(f, a, b, 0)
  {
    var net := AttachNet(NewNode(EMPTY).net, a);
    assert net == Net([a], {0}, map[0 := map[]]);
    assert AttachNet(net, b).have == TwoPeers(f, a, b, 0).have;
    assert AttachNet(net, b).sessions == {0, 1};
  }

  function SlowState(f: bytes, hash: bytes, a: bytes, b: bytes, k: nat): Node {
    if k == 0 then NewNode(EMPTY)
    else if k == 1 then NewNode(EMPTY).(net := AttachNet(NewNode(EMPTY).net, a))
    else if k == 2 then Connected(a, b)
    else Fetcher(f, hash, a, b, if k < 5 then k - 3 else 2)
  }

  function SlowEvent(f: bytes, hash: bytes, a: bytes, b: bytes, k: nat): Event {
    if k == 0 then Attach(a)
    else if k == 1 then Attach(b)
    else if k == 2 then Start(OneChunk(f, hash), 1)
    else if k < 5 then GotPiece(k - 3, f, 0)
    else Timeout(f, 0)
  }

  lemma SlowStep(c: Suite, f: bytes, hash: bytes, a: bytes, b: bytes, k: nat)
    requires k < 6
    ensures Next(c, SlowState(f, hash, a, b, k), SlowEvent(f, hash, a, b, k), SlowState(f, hash, a, b, k + 1))
  {
    if k == 1 {
      TwoAttach([], a, b);
    } else if k == 2 {
      FetcherStarts(c, f, hash, a, b);
    } else if 3 <= k < 5 {
      FetcherHears(c, f, hash, a, b, k - 3);
    } else if k == 5 {
      FetcherTimesOut(c, f, hash, a, b);
    }
  }

  lemma SlowEnabled(c: Suite, f: bytes, hash: bytes, a: bytes, b: bytes, k: nat)
    requires k < 6
    ensures Enabled(c, map[f := OneChunk(f, hash)], SlowState(f, hash, a, b, k), SlowEvent(f, hash, a, b, k))
  {}

  /**
   * A timeout that retries where it failed. In this run two connected peers have announced the chunk; the
   * request to the first one times out, the second one may serve it, and the first one is asked again.
   */
  lemma SlowPeerAskedAgain(c: Suite, f: bytes, hash: bytes, a: bytes, b: bytes)
    returns (states: seq<Node>, events: seq<Event>)
    ensures Run(c, map[f := OneChunk(f, hash)], states, events) && states[0] == NewNode(EMPTY)
    ensures |events| == 6 && events[5] == Timeout(f, 0)
    ensures f in states[5].downloads && f in states[6].downloads
    ensures states[5].downloads[f].inFlight == map[0 := 0]
    ensures Eligible(states[5].net, f, states[5].downloads[f], 1, 0)
    ensures states[6].downloads[f].inFlight == map[0 := 0]
  {
    states := seq(7, k requires 0 <= k < 7 => SlowState(f, hash, a, b, k));
    events := seq(6, k requires 0 <= k < 6 => SlowEvent(f, hash, a, b, k));
    NewNodeInv(c, map[f := OneChunk(f, hash)], EMPTY);
    forall k | 0 <= k < |events|
      ensures StepOk(c, map[f := OneChunk(f, hash)], states, events, k)
    {
      SlowStep(c, f, hash, a, b, k);
      SlowEnabled(c, f, hash, a, b, k);
    }
  }

  // ---- Two manifests that disagree on one file ----

  /** Two manifests of one file, in one chunk and in two, and the two chunks of the second. */
  ghost predicate Disagree(c: Suite, b1: Body, b: Body, id: bytes, x: Data, y: Data) {
    && b1.fileId == b.fileId && b1.nbChunks == 1 && b.nbChunks == 2 == |b.chunks|
    && x.idx == 0 && y.idx == 1 && x.fileId == b.fileId == y.fileId
    && Good(c, b, id, x) && Good(c, b, id, y)
  }

  /** The download by the second manifest over a store that counts by the first. */
  function Torn(b1: Body, b: Body, id: bytes, needed: set<nat>, chunks: seq<nat>, disk: S.Disk): Node {
    var received := if |needed| <= 2 then 2 - |needed| else 0;
    Node(AttachNet(NewNode(EMPTY).net, id), map[b.fileId := b],
         map[b.fileId := Download(b, needed, map[], map[], 1, received)],
         S.Store(map[b1.fileId := S.FileIndex(b1.filename, b1.size, b1.chunkSize, b1.nbChunks, chunks)], disk), [])
  }

  lemma NobodyAnnounced(net: Net, f: bytes, d: Download)
    requires NetInv(net) && forall p, i :: !Says(net, f, p, i)
    ensures Scheduled(net, f, d, d)
  {
    forall i | i in d.needed
      ensures Count(net, f, i) == 0
    {
      CountPositive(net, f, i, |net.ids|);
    }
    ScheduledNone(net, f, d);
  }

  lemma TornStarts(c: Suite, b1: Body, b: Body, id: bytes)
    requires b1.fileId == b.fileId && b1.nbChunks == 1 && b.nbChunks == 2
    ensures var n := NewNode(EMPTY).(net := AttachNet(NewNode(EMPTY).net, id));
            Next(c, Register(n, b1), Start(b, 1), Torn(b1, b, id, {0, 1}, [], map[]))
  {
    var n, n' := Register(NewNode(EMPTY).(net := AttachNet(NewNode(EMPTY).net, id)), b1), Torn(b1, b, id, {0, 1}, [], map[]);
    assert Missing(n.store, b) == {0, 1};
    assert Opened(n, b, 1) == n';
    NobodyAnnounced(n'.net, b.fileId, n'.downloads[b.fileId]);
  }

  /** The index after the two chunks have come, one after the other. */
  lemma TwoInOrder()
    ensures S.Sort([0]) == [0] && S.Sort([0, 1]) == [0, 1]
  {
    S.SortIncreasing([0]);
    S.SortIncreasing([0, 1]);
  }

  /** A good chunk put in a store of one file. */
  lemma PutOne(sha: bytes -> bytes, f: bytes, fi: S.FileIndex, disk: S.Disk, idx: nat, data: bytes)
    requires idx !in fi.chunks
    ensures S.PutStep(sha, S.Store(map[f := fi], disk), f, idx, data, sha(data)).0
         == S.Store(map[f := fi.(chunks := S.Sort(fi.chunks + [idx]))], disk[(f, idx) := data])
  {
    Overwrite(f, fi, fi.(chunks := S.Sort(fi.chunks + [idx])));
  }

  lemma FirstAccepted(c: Suite, b1: Body, b: Body, id: bytes, x: Data, y: Data)
    requires Disagree(c, b1, b, id, x, y)
    ensures Accept(c, Torn(b1, b, id, {0, 1}, [], map[]), x) == Torn(b1, b, id, {1}, [0], map[(b.fileId, 0) := x.data])
  {
    var f, n, n' := b.fileId, Torn(b1, b, id, {0, 1}, [], map[]), Torn(b1, b, id, {1}, [0], map[(b.fileId, 0) := x.data]);
    TwoInOrder();
    assert [] + [0] == [0];
    PutOne(c.sha, f, n.store.files[f], map[], 0, x.data);
    FirstCounts(b1, b, id, x);
    Overwrite(f, n.downloads[f], n'.downloads[f]);
    AcceptIs(c, n, x, n'.store, n'.downloads[f]);
  }

  lemma FirstCounts(b1: Body, b: Body, id: bytes, x: Data)
    ensures var d := Torn(b1, b, id, {0, 1}, [], map[]).downloads[b.fileId];
            var d' := Torn(b1, b, id, {1}, [0], map[(b.fileId, 0) := x.data]).downloads[b.fileId];
            Unrequest(d, 0).(needed := d.needed - {0}, received := d.received + 1) == d'
  {
    assert {0, 1} - {0} == {1};
    var none: map<nat, Peer> := map[];
    assert none - {0} == none;
  }

  lemma AcceptIs(c: Suite, n: Node, m: Data, s: S.Store, d: Download)
    requires m.fileId in n.downloads && m.idx < |n.downloads[m.fileId].body.chunks|
    requires S.PutStep(c.sha, n.store, m.fileId, m.idx, m.data, n.downloads[m.fileId].body.chunks[m.idx].hash).0 == s
    requires var d0 := n.downloads[m.fileId];
             Unrequest(d0, m.idx).(needed := d0.needed - {m.idx}, received := d0.received + 1) == d
    ensures Accept(c, n, m) == n.(store := s, downloads := n.downloads[m.fileId := d])
  {}

  lemma FirstArrives(c: Suite, b1: Body, b: Body, id: bytes, x: Data, y: Data)
    requires Disagree(c, b1, b, id, x, y)
    ensures Next(c, Torn(b1, b, id, {0, 1}, [], map[]), GotData(0, x), Torn(b1, b, id, {1}, [0], map[(b.fileId, 0) := x.data]))
  {
    var f, n' := b.fileId, Torn(b1, b, id, {1}, [0], map[(b.fileId, 0) := x.data]);
    FirstAccepted(c, b1, b, id, x, y);
    NobodyAnnounced(n'.net, f, n'.downloads[f]);
    Overwrite(f, n'.downloads[f], n'.downloads[f]);
    RescheduledTo(n', f, n'.downloads[f]);
  }

  lemma SecondArrives(c: Suite, b1: Body, b: Body, id: bytes, x: Data, y: Data)
    requires Disagree(c, b1, b, id, x, y)
    ensures var n := Torn(b1, b, id, {1}, [0], map[(b.fileId, 0) := x.data]);
            var n' := Finish(c, Accept(c, n, y), b.fileId);
            Next(c, n, GotData(0, y), n') && n'.outcomes == [Rejected(b.fileId)]
  {
    var n := Torn(b1, b, id, {1}, [0], map[(b.fileId, 0) := x.data]);
    TwoInOrder();
    assert [0] + [1] == [0, 1] && {1} - {1} == {};
    var n1 := Accept(c, n, y);
    assert n1.store.files[b.fileId].chunks == [0, 1] && n1.store.files[b.fileId].nbChunks == 1;
    assert !S.Readable(n1.store, b.fileId);
    assert [] + [Rejected(b.fileId)] == [Rejected(b.fileId)];
  }

  /**
   * A download that is rejected. A manifest of the file in one chunk is registered first; then the file is
   * downloaded by a manifest in two chunks, both of which arrive and pass every check: reassembly throws,
   * because the store still counts one chunk.
   */
  lemma DisagreementRejects(c: Suite, m1: Manifest, b: Body, id: bytes, x: Data, y: Data)
    returns (n1: Node, n2: Node, n3: Node, n4: Node, n5: Node)
    requires VerifyManifest(c, m1) && Disagree(c, m1.body, b, id, x, y)
    ensures Next(c, NewNode(EMPTY), Attach(id), n1)
    ensures Next(c, n1, GotManifest(m1), n2)
    ensures Next(c, n2, Start(b, 1), n3)
    ensures Next(c, n3, GotData(0, x), n4)
    ensures Next(c, n4, GotData(0, y), n5)
    ensures n5.outcomes == [Rejected(b.fileId)]
  {
    var b1 := m1.body;
    n1 := NewNode(EMPTY).(net := AttachNet(NewNode(EMPTY).net, id));
    n2 := Register(n1, b1);
    n3 := Torn(b1, b, id, {0, 1}, [], map[]);
    n4 := Torn(b1, b, id, {1}, [0], map[(b.fileId, 0) := x.data]);
    n5 := Finish(c, Accept(c, n4, y), b.fileId);
    TornStarts(c, b1, b, id);
    FirstArrives(c, b1, b, id, x, y);
    SecondArrives(c, b1, b, id, x, y);
  }
}
