/** Whole runs of a file node: completion, corruption retry and convergence (src/file/fileNode.js). */
module Transfer {
  import opened Arithmetic
  import opened Bytes
  import opened Manifest
  import opened Download
  import opened FileNode
  import S = ChunkStore

  ghost predicate StepOk(c: Suite, cat: map<bytes, Body>, states: seq<Node>, events: seq<Event>, k: nat)
    requires k < |events| && |states| == |events| + 1
  {
    Enabled(c, cat, states[k], events[k]) && Next(c, states[k], events[k], states[k + 1])
  }

  /** A run: `states[k + 1]` results from `events[k]` in `states[k]`. */
  ghost predicate Run(c: Suite, cat: map<bytes, Body>, states: seq<Node>, events: seq<Event>) {
    && |states| == |events| + 1
    && NodeInv(c, cat, states[0])
    && forall k :: 0 <= k < |events| ==> StepOk(c, cat, states, events, k)
  }

  lemma {:induction false} RunKeepsInv(c: Suite, cat: map<bytes, Body>, states: seq<Node>, events: seq<Event>, k: nat)
    requires Run(c, cat, states, events) && k < |states|
    ensures NodeInv(c, cat, states[k])
  {
    if k > 0 {
      RunKeepsInv(c, cat, states, events, k - 1);
      assert StepOk(c, cat, states, events, k - 1);
      NextKeepsInv(c, cat, states[k - 1], events[k - 1], states[k]);
    }
  }

  // ---- Completion ----

  /** The pieces of a reassembled file all have the announced digests. */
  ghost predicate Vouched(c: Suite, b: Body, pieces: seq<bytes>) {
    |pieces| == |b.chunks| && forall i :: 0 <= i < |pieces| ==> c.sha(pieces[i]) == b.chunks[i].hash
  }

  ghost predicate OutcomeOk(c: Suite, cat: map<bytes, Body>, o: Outcome) {
    && o.Assembled? && o.fileId in cat
    && o.digest == c.sha(o.content) && (o.matches <==> o.digest == o.fileId)
    && exists pieces: seq<bytes> :: Vouched(c, cat[o.fileId], pieces) && o.content == Concat(pieces)
  }

  lemma FinishOk(c: Suite, cat: map<bytes, Body>, n: Node, f: bytes)
    requires StoreMatches(c, cat, n.store) && f in n.downloads
    requires DownloadInv(cat, n.net, n.store, f, n.downloads[f]) && n.downloads[f].needed == {}
    ensures exists o :: Finish(c, n, f).outcomes == n.outcomes + [o] && OutcomeOk(c, cat, o)
  {
    FinishAssembles(c, cat, n, f);
    var fi := n.store.files[f];
    var pieces := S.StoredPieces(n.store.disk, f, fi.nbChunks);
    assert FileMatches(c, cat[f], n.store, f);
    S.CompleteIff(fi);
    forall i | 0 <= i < |pieces|
      ensures c.sha(pieces[i]) == cat[f].chunks[i].hash
    {
      assert i in fi.chunks;
    }
    assert Vouched(c, cat[f], pieces);
    var content := Concat(pieces);
    var o := Assembled(f, content, c.sha(content), c.sha(content) == n.downloads[f].body.fileId);
    assert Finish(c, n, f).outcomes == n.outcomes + [o];
  }

  /** Every event leaves the settled outcomes alone, or adds one sound outcome. */
  lemma NextOutcomes(c: Suite, cat: map<bytes, Body>, n: Node, e: Event, n': Node)
    requires NodeInv(c, cat, n) && Enabled(c, cat, n, e) && Next(c, n, e, n')
    ensures n'.outcomes == n.outcomes
            || exists o :: n'.outcomes == n.outcomes + [o] && OutcomeOk(c, cat, o)
  {
    match e
    case GotData(p, m) =>
      if m.fileId in n.downloads && Good(c, n.downloads[m.fileId].body, n.net.ids[p], m) {
        AcceptKeeps(c, cat, n, p, m);
        if Accept(c, n, m).downloads[m.fileId].needed == {} {
          FinishOk(c, cat, Accept(c, n, m), m.fileId);
        }
      }
    case Start(b, parallel) =>
      RegisterKeeps(c, cat, n, b);
      OpenedInv(c, cat, Register(n, b), b, parallel);
      if Opened(n, b, parallel).downloads[b.fileId].needed == {} {
        FinishOk(c, cat, Opened(n, b, parallel), b.fileId);
      }
    case _ =>
  }

  lemma {:induction false} RunOutcomes(c: Suite, cat: map<bytes, Body>, states: seq<Node>, events: seq<Event>, k: nat, o: Outcome)
    requires Run(c, cat, states, events) && k < |states| && states[0].outcomes == []
    requires o in states[k].outcomes
    ensures OutcomeOk(c, cat, o)
  {
    if k > 0 {
      RunKeepsInv(c, cat, states, events, k - 1);
      assert StepOk(c, cat, states, events, k - 1);
      NextOutcomes(c, cat, states[k - 1], events[k - 1], states[k]);
      if o in states[k - 1].outcomes {
        RunOutcomes(c, cat, states, events, k - 1, o);
      }
    }
  }

  lemma {:induction false} FirstDifference(ps: seq<bytes>, qs: seq<bytes>, i: nat) returns (j: nat)
    requires |ps| == |qs| && i <= |ps|
    requires forall k :: 0 <= k < i ==> ps[k] == qs[k]
    ensures j <= |ps|
    ensures j == |ps| ==> ps == qs
    ensures j < |ps| ==> ps[j] != qs[j]
    decreases |ps| - i
  {
    if i == |ps| || ps[i] != qs[i] {
      j := i;
    } else {
      j := FirstDifference(ps, qs, i + 1);
    }
  }

  /** A sound outcome of a file is that file, or a collision. */
  lemma OutcomeIsFile(c: Suite, cat: map<bytes, Body>, o: Outcome, file: bytes, chunkSize: pos, filename: string,
                      senderId: bytes)
      returns (x: bytes, y: bytes)
    requires OutcomeOk(c, cat, o) && o.fileId == c.sha(file)
    requires cat[o.fileId] == BodyOf(c, file, chunkSize, filename, senderId)
    ensures (o.content == file && o.matches) || (x != y && c.sha(x) == c.sha(y))
  {
    var qs := Pieces(file, chunkSize);
    var pieces: seq<bytes> :| Vouched(c, cat[o.fileId], pieces) && o.content == Concat(pieces);
    var j := FirstDifference(pieces, qs, 0);
    x, y := [], [];
    if j < |pieces| {
      x, y := pieces[j], qs[j];
    } else {
      PiecesConcat(file, chunkSize);
    }
  }

  /**
   * A completed download is correct. When a promise settles, in any run, it is with a reassembled file.
   * If the manifest was built from `file`, the result is `file` itself and `matches` is true, unless two
   * different byte strings with the same SHA-256 exist, which are then exhibited.
   */
  lemma CompletionCorrect(c: Suite, cat: map<bytes, Body>, states: seq<Node>, events: seq<Event>, k: nat, o: Outcome,
                          file: bytes, chunkSize: pos, filename: string, senderId: bytes)
      returns (x: bytes, y: bytes)
    requires Run(c, cat, states, events) && k < |states| && states[0].outcomes == []
    requires o in states[k].outcomes
    requires o.fileId in cat ==> cat[o.fileId] == BodyOf(c, file, chunkSize, filename, senderId)
    requires c.sha(file) == o.fileId
    ensures o.Assembled?
    ensures (o.content == file && o.matches) || (x != y && c.sha(x) == c.sha(y))
  {
    RunOutcomes(c, cat, states, events, k, o);
    x, y := OutcomeIsFile(c, cat, o, file, chunkSize, filename, senderId);
  }

  /**
   * Seeding. When the reads return the bytes at `i * chunk_size` of the file the manifest was built from,
   * every put succeeds and the file is complete in the store.
   */
  lemma SeedCompletes(c: Suite, cat: map<bytes, Body>, n: Node, n': Node, file: bytes, chunkSize: pos,
                      filename: string, senderId: bytes, bufs: seq<bytes>)
    requires var b := BodyOf(c, file, chunkSize, filename, senderId);
             && NodeInv(c, cat, n) && Agrees(cat, b) && Digested(b) && |bufs| == b.nbChunks
             && Next(c, n, Seed(b, bufs), n')
    requires forall i :: 0 <= i < |bufs| ==> i * chunkSize <= |file| && bufs[i] == Slice(file, chunkSize, i)
    ensures S.Complete(n'.store, c.sha(file))
  {
    var b := BodyOf(c, file, chunkSize, filename, senderId);
    RegisterKeeps(c, cat, n, b);
    SeedKeeps(c, cat, n, b, bufs, n');
    SeedStoreKeeps(c, cat, Register(n, b).store, b, bufs, |bufs|);
    var fi := n'.store.files[b.fileId];
    assert FileMatches(c, cat[b.fileId], n'.store, b.fileId);
    forall i | 0 <= i < fi.nbChunks
      ensures i in fi.chunks
    {
      PieceIsSlice(file, chunkSize, i);
      SeedStores(c, cat, Register(n, b).store, b, bufs, |bufs|, i);
      assert S.Has(n'.store, b.fileId, i);
    }
    S.CompleteIff(fi);
  }

  // ---- What one event does to an active download ----

  /** The wanted set only shrinks and bad marks are never forgotten while a download is active. */
  ghost predicate Progresses(d: Download, d': Download) {
    && d'.body == d.body && d'.parallel == d.parallel && d'.needed <= d.needed
    && forall p: Peer, i: nat :: Bad(d, p, i) ==> Bad(d', p, i)
  }

  /** A scheduling call on `g` leaves the wanted and bad sets of every download alone. */
  lemma RescheduledProgresses(n: Node, g: bytes, n': Node, f: bytes)
    requires Rescheduled(n, g, n') && f in n.downloads
    ensures f in n'.downloads && n'.net == n.net
    ensures n'.downloads[f] == n.downloads[f].(inFlight := n'.downloads[f].inFlight)
  {
    if g in n.downloads {
      ScheduledOnlyFlights(n.net, g, n.downloads[g], n'.downloads[g]);
    }
  }

  /** The chunk of a CHUNK_DATA for `f` is answered: it leaves `needed`, or its sender is marked. */
  ghost predicate Answered(d: Download, d': Download, p: Peer, i: nat) {
    i !in d'.needed || Bad(d', p, i)
  }

  /** A chunk that fails a check marks its sender. */
  lemma RefuseProgresses(c: Suite, n: Node, p: Peer, m: Data, n': Node, f: bytes)
    requires m.fileId in n.downloads && f in n.downloads && Rescheduled(Refuse(n, p, m), m.fileId, n')
    ensures f in n'.downloads && Progresses(n.downloads[f], n'.downloads[f]) && n'.net == n.net
    ensures m.fileId == f ==> Bad(n'.downloads[f], p, m.idx)
    ensures m.fileId != f ==> n'.downloads[f].bad == n.downloads[f].bad
    ensures forall q: Peer, i: nat :: q != p && Bad(n'.downloads[f], q, i) ==> Bad(n.downloads[f], q, i)
  {
    RescheduledProgresses(Refuse(n, p, m), m.fileId, n', f);
  }

  /** A chunk that passes them all is wanted no more. */
  lemma AcceptProgresses(c: Suite, n: Node, m: Data, n': Node, f: bytes)
    requires m.fileId in n.downloads && m.idx < |n.downloads[m.fileId].body.chunks|
    requires f in n.downloads && f in n'.downloads
    requires var n1 := Accept(c, n, m);
             if n1.downloads[m.fileId].needed == {} then n' == Finish(c, n1, m.fileId) else Rescheduled(n1, m.fileId, n')
    ensures Progresses(n.downloads[f], n'.downloads[f]) && n'.net == n.net
    ensures m.fileId == f ==> m.idx !in n'.downloads[f].needed
    ensures n'.downloads[f].bad == n.downloads[f].bad
  {
    if Accept(c, n, m).downloads[m.fileId].needed != {} {
      RescheduledProgresses(Accept(c, n, m), m.fileId, n', f);
    }
  }

  lemma DataProgresses(c: Suite, cat: map<bytes, Body>, n: Node, p: Peer, m: Data, n': Node, f: bytes)
    requires NodeInv(c, cat, n) && p < |n.net.ids| && Next(c, n, GotData(p, m), n')
    requires f in n.downloads && f in n'.downloads
    ensures Progresses(n.downloads[f], n'.downloads[f]) && n'.net == n.net
    ensures m.fileId == f ==> Answered(n.downloads[f], n'.downloads[f], p, m.idx)
    ensures Good(c, n.downloads[f].body, n.net.ids[p], m) || m.fileId != f ==>
              forall q: Peer, i: nat :: Bad(n'.downloads[f], q, i) ==> Bad(n.downloads[f], q, i)
    ensures forall q: Peer, i: nat :: q != p && Bad(n'.downloads[f], q, i) ==> Bad(n.downloads[f], q, i)
  {
    if m.fileId in n.downloads {
      assert Active(cat, n.net, n.store, m.fileId, n.downloads[m.fileId]);
      if Good(c, n.downloads[m.fileId].body, n.net.ids[p], m) {
        AcceptProgresses(c, n, m, n', f);
      } else {
        RefuseProgresses(c, n, p, m, n', f);
      }
    }
  }

  /** Any other event leaves the wanted and bad sets of an active download as they are. */
  lemma OtherProgresses(c: Suite, n: Node, e: Event, n': Node, f: bytes)
    requires Next(c, n, e, n') && !e.GotData? && !Restarts(e, f)
    requires f in n.downloads && f in n'.downloads
    ensures n'.downloads[f] == n.downloads[f].(inFlight := n'.downloads[f].inFlight)
    ensures !e.Attach? ==> n'.net.sessions <= n.net.sessions
    ensures !e.Attach? && !e.Closed? ==> n'.net.sessions == n.net.sessions
  {
    match e
    case GotHave(p, g, bf) =>
      if KnownChunks(n, g).Some? {
        var indices := set i | i in S.ParseBitfield(bf, KnownChunks(n, g).value);
        RescheduledProgresses(n.(net := Announce(n.net, p, g, indices)), g, n', f);
      }
    case GotPiece(p, g, i) => RescheduledProgresses(n.(net := Announce(n.net, p, g, {i})), g, n', f);
    case Timeout(g, i) =>
      if g in n.downloads && i in n.downloads[g].inFlight {
        RescheduledProgresses(n.(downloads := n.downloads[g := Unrequest(n.downloads[g], i)]), g, n', f);
      }
    case Tick(g) => RescheduledProgresses(n, g, n', f);
    case Closed(p) => ScheduledOnlyFlights(n'.net, f, DropPeer(n.downloads[f], p), n'.downloads[f]);
    case Start(b, parallel) =>
      if Opened(n, b, parallel).downloads[b.fileId].needed != {} {
        RescheduledProgresses(Opened(n, b, parallel), b.fileId, n', f);
      }
    case _ =>
  }

  lemma NextProgresses(c: Suite, cat: map<bytes, Body>, n: Node, e: Event, n': Node, f: bytes)
    requires NodeInv(c, cat, n) && Enabled(c, cat, n, e) && Next(c, n, e, n')
    requires !Restarts(e, f)
    requires f in n.downloads && f in n'.downloads
    ensures Progresses(n.downloads[f], n'.downloads[f])
    ensures !e.Attach? ==> n'.net.sessions <= n.net.sessions
  {
    if e.GotData? {
      DataProgresses(c, cat, n, e.p, e.msg, n', f);
    } else {
      OtherProgresses(c, n, e, n', f);
    }
  }

  // ---- Corruption retry ----

  /** A further download of the same file takes the place of the one there was. */
  predicate Restarts(e: Event, f: bytes) {
    e.Start? && e.body.fileId == f
  }

  /** Between two states of a run one and the same download of `f` stayed active. */
  ghost predicate StaysActive(states: seq<Node>, events: seq<Event>, f: bytes, a: nat, b: nat)
    requires a <= b < |states| && |states| == |events| + 1
  {
    && (forall k :: a <= k <= b ==> f in states[k].downloads)
    && (forall k :: a <= k < b ==> !Restarts(events[k], f))
  }

  lemma ProgressAt(c: Suite, cat: map<bytes, Body>, states: seq<Node>, events: seq<Event>, f: bytes, k: nat)
    requires Run(c, cat, states, events) && k < |events|
    requires !Restarts(events[k], f)
    requires f in states[k].downloads && f in states[k + 1].downloads
    ensures Progresses(states[k].downloads[f], states[k + 1].downloads[f])
  {
    RunKeepsInv(c, cat, states, events, k);
    assert StepOk(c, cat, states, events, k);
    NextProgresses(c, cat, states[k], events[k], states[k + 1], f);
  }

  /** The states of a download from `a` to `b`. */
  ghost function Stages(states: seq<Node>, events: seq<Event>, f: bytes, a: nat, b: nat): (r: seq<Download>)
    requires a <= b < |states| && |states| == |events| + 1 && StaysActive(states, events, f, a, b)
    ensures |r| == b - a + 1
    ensures forall k :: 0 <= k <= b - a ==> r[k] == states[a + k].downloads[f]
  {
    seq(b - a + 1, k requires 0 <= k <= b - a => states[a + k].downloads[f])
  }

  ghost predicate Improves(ds: seq<Download>, k: nat)
    requires k + 1 < |ds|
  {
    Progresses(ds[k], ds[k + 1])
  }

  lemma {:induction false} StagesImprove(c: Suite, cat: map<bytes, Body>, states: seq<Node>, events: seq<Event>, f: bytes, a: nat, b: nat)
    requires Run(c, cat, states, events) && a <= b < |states| && StaysActive(states, events, f, a, b)
    ensures var ds := Stages(states, events, f, a, b); forall k :: 0 <= k < b - a ==> Improves(ds, k)
  {
    forall k | 0 <= k < b - a
      ensures Improves(Stages(states, events, f, a, b), k)
    {
      StageImproves(c, cat, states, events, f, a, b, k);
    }
  }

  lemma {:induction false} StageImproves(c: Suite, cat: map<bytes, Body>, states: seq<Node>, events: seq<Event>, f: bytes,
                                         a: nat, b: nat, k: nat)
    requires Run(c, cat, states, events) && a + k < b < |states| && StaysActive(states, events, f, a, b)
    ensures Improves(Stages(states, events, f, a, b), k)
  {
    ProgressAt(c, cat, states, events, f, a + k);
    var ds := Stages(states, events, f, a, b);
    assert ds[k] == states[a + k].downloads[f] && ds[k + 1] == states[a + k + 1].downloads[f];
  }

  /** Marks are kept all along, and so is the limit. */
  lemma {:induction false} ImprovedLast(ds: seq<Download>, p: Peer, i: nat)
    requires |ds| > 0 && forall k :: 0 <= k < |ds| - 1 ==> Improves(ds, k)
    ensures Bad(ds[0], p, i) ==> Bad(ds[|ds| - 1], p, i)
    ensures ds[|ds| - 1].parallel == ds[0].parallel
  {
    if |ds| > 1 {
      var front := ds[..|ds| - 1];
      forall k | 0 <= k < |front| - 1
        ensures Improves(front, k)
      {
        assert Improves(ds, k);
      }
      ImprovedLast(front, p, i);
      assert Improves(ds, |ds| - 2);
    }
  }

  lemma {:induction false} BadStays(c: Suite, cat: map<bytes, Body>, states: seq<Node>, events: seq<Event>,
                 f: bytes, p: Peer, i: nat, a: nat, b: nat)
    requires Run(c, cat, states, events) && a <= b < |states| && StaysActive(states, events, f, a, b)
    requires Bad(states[a].downloads[f], p, i)
    ensures Bad(states[b].downloads[f], p, i)
  {
    StagesImprove(c, cat, states, events, f, a, b);
    ImprovedLast(Stages(states, events, f, a, b), p, i);
  }

  lemma MarkedAfter(c: Suite, n: Node, p: Peer, m: Data, n': Node)
    requires Next(c, n, GotData(p, m), n') && m.fileId in n.downloads && p < |n.net.ids|
    requires !Good(c, n.downloads[m.fileId].body, n.net.ids[p], m)
    ensures m.fileId in n'.downloads && Bad(n'.downloads[m.fileId], p, m.idx)
  {
    RescheduledProgresses(Refuse(n, p, m), m.fileId, n', m.fileId);
  }

  lemma NotAskedWhenBad(c: Suite, cat: map<bytes, Body>, n: Node, f: bytes, p: Peer, i: nat)
    requires NodeInv(c, cat, n) && f in n.downloads && Bad(n.downloads[f], p, i)
    ensures !(i in n.downloads[f].inFlight && n.downloads[f].inFlight[i] == p)
  {
    assert Active(cat, n.net, n.store, f, n.downloads[f]);
  }

  /**
   * Corruption retry. Once a peer has sent a copy of a chunk that fails a check, no later state of that
   * download has a request for that chunk in flight to that peer.
   */
  lemma {:induction false} NeverAskedAgain(c: Suite, cat: map<bytes, Body>, states: seq<Node>, events: seq<Event>,
                        p: Peer, m: Data, a: nat, b: nat)
    requires Run(c, cat, states, events) && a < b < |states| && events[a] == GotData(p, m)
    requires StaysActive(states, events, m.fileId, a, b)
    requires p < |states[a].net.ids| && !Good(c, states[a].downloads[m.fileId].body, states[a].net.ids[p], m)
    ensures var d := states[b].downloads[m.fileId];
            !(m.idx in d.inFlight && d.inFlight[m.idx] == p)
  {
    MarkedNext(c, cat, states, events, p, m, a);
    BadStays(c, cat, states, events, m.fileId, p, m.idx, a + 1, b);
    NotAskedAt(c, cat, states, events, m.fileId, p, m.idx, b);
  }

  lemma {:induction false} MarkedNext(c: Suite, cat: map<bytes, Body>, states: seq<Node>, events: seq<Event>, p: Peer, m: Data, a: nat)
    requires Run(c, cat, states, events) && a < |events| && events[a] == GotData(p, m) && m.fileId in states[a].downloads
    requires p < |states[a].net.ids| && !Good(c, states[a].downloads[m.fileId].body, states[a].net.ids[p], m)
    ensures m.fileId in states[a + 1].downloads && Bad(states[a + 1].downloads[m.fileId], p, m.idx)
  {
    assert StepOk(c, cat, states, events, a);
    MarkedAfter(c, states[a], p, m, states[a + 1]);
  }

  lemma {:induction false} NotAskedAt(c: Suite, cat: map<bytes, Body>, states: seq<Node>, events: seq<Event>, f: bytes, p: Peer,
                                      i: nat, b: nat)
    requires Run(c, cat, states, events) && b < |states| && f in states[b].downloads && Bad(states[b].downloads[f], p, i)
    ensures !(i in states[b].downloads[f].inFlight && states[b].downloads[f].inFlight[i] == p)
  {
    RunKeepsInv(c, cat, states, events, b);
    NotAskedWhenBad(c, cat, states[b], f, p, i);
  }

  // ---- Timeouts ----

  /** The peer `_schedule` prefers for a chunk once its request has timed out. */
  function Preferred(net: Net, f: bytes, d: Download, i: nat): Option<Peer> {
    var d1 := Unrequest(d, i);
    var peers := PeersForChunk(net, f, d1, i);
    if peers == [] then None else Some(LeastLoaded(d1, peers))
  }

  /** After a timeout its chunk is the only one to ask for, or takes the only room there is. */
  lemma TimeoutFrees(net: Net, f: bytes, d: Download, i: nat)
    requires NetInv(net) && TableInv(net, f, d) && Conserves(net, f, d) && i in d.inFlight
    ensures TableInv(net, f, Unrequest(d, i)) && OneAtMost(net, f, Unrequest(d, i), i)
    ensures |Unrequest(d, i).inFlight| == |d.inFlight| - 1
    ensures Servable(net, f, Unrequest(d, i), i)
  {
    var d1 := Unrequest(d, i);
    assert d1.inFlight.Keys == d.inFlight.Keys - {i};
    forall q: Peer, j: nat
      ensures Eligible(net, f, d1, q, j) <==> Eligible(net, f, d, q, j)
    {}
    assert Eligible(net, f, d1, d.inFlight[i], i);
    if |d.inFlight| < d.parallel {
      forall j | j in d1.needed && j != i && j !in d1.inFlight
        ensures !Servable(net, f, d1, j)
      {
        assert j !in d.inFlight && !Servable(net, f, d, j);
      }
    }
  }

  /**
   * Where a timed-out chunk goes. The slow peer is not excluded: if the chunk is asked for again by the
   * timeout, it is of the first least loaded eligible peer, the slow one among them. So it is retried
   * elsewhere if and only if that peer is another one; and it is asked for again whenever there had been
   * room for one more request.
   */
  lemma TimeoutRetries(c: Suite, cat: map<bytes, Body>, n: Node, f: bytes, i: nat, n': Node)
    requires NodeInv(c, cat, n) && Next(c, n, Timeout(f, i), n') && f in n.downloads && i in n.downloads[f].inFlight
    ensures f in n'.downloads
    ensures var d, d', p := n.downloads[f], n'.downloads[f], n.downloads[f].inFlight[i];
            && Eligible(n.net, f, Unrequest(d, i), p, i)
            && (|d.inFlight| < d.parallel ==> i in d'.inFlight)
            && (i in d'.inFlight ==>
                  && Preferred(n.net, f, d, i) == Some(d'.inFlight[i])
                  && (d'.inFlight[i] != p <==> Preferred(n.net, f, d, i) != Some(p)))
  {
    var d, d1 := n.downloads[f], Unrequest(n.downloads[f], i);
    var n1 := n.(downloads := n.downloads[f := d1]);
    assert Active(cat, n.net, n.store, f, d);
    assert Eligible(n.net, f, d, d.inFlight[i], i);
    TimeoutFrees(n.net, f, d, i);
    assert Rescheduled(n1, f, n');
    var d' := n'.downloads[f];
    if |d.inFlight| < d.parallel {
      ScheduledAsks(n.net, f, d1, d', i);
    }
    if i in d'.inFlight {
      ScheduledOne(n.net, f, d1, d', i);
    }
  }

  /** With nothing else in flight, the slow peer is preferred again when it was attached first. */
  lemma SlowPeerPreferred(net: Net, f: bytes, d: Download, i: nat)
    requires i in d.inFlight && d.inFlight.Keys == {i}
    requires PeersForChunk(net, f, Unrequest(d, i), i) != []
    requires PeersForChunk(net, f, Unrequest(d, i), i)[0] == d.inFlight[i]
    ensures Preferred(net, f, d, i) == Some(d.inFlight[i])
  {
    var d1 := Unrequest(d, i);
    FirstOfIdle(d1, PeersForChunk(net, f, d1, i));
  }

  /** Among idle peers the first one is chosen. */
  lemma {:induction false} FirstOfIdle(d: Download, peers: seq<Peer>)
    requires d.inFlight == map[] && peers != []
    ensures LeastLoaded(d, peers) == peers[0]
    decreases |peers|
  {
    assert forall p :: FlightsOf(d, p) == {};
    if |peers| > 1 {
      FirstOfIdle(d, peers[..|peers| - 1]);
    }
  }

  // ---- Convergence ----

  /** A reply to a request that is in flight to its sender. */
  ghost predicate Solicited(n: Node, e: Event, f: bytes) {
    && e.GotData? && e.msg.fileId == f && f in n.downloads
    && e.msg.idx in n.downloads[f].inFlight && n.downloads[f].inFlight[e.msg.idx] == e.p
  }

  /**
   * No event but a new session raises the measure of an active download, and every reply from the peer
   * that was asked lowers it.
   */
  lemma PhiStep(c: Suite, cat: map<bytes, Body>, n: Node, e: Event, n': Node, f: bytes)
    requires NodeInv(c, cat, n) && Enabled(c, cat, n, e) && Next(c, n, e, n') && !e.Attach?
    requires !Restarts(e, f)
    requires f in n.downloads && f in n'.downloads
    ensures Phi(n'.net, n'.downloads[f]) <= Phi(n.net, n.downloads[f])
    ensures Solicited(n, e, f) ==> Phi(n'.net, n'.downloads[f]) < Phi(n.net, n.downloads[f])
  {
    var d, d' := n.downloads[f], n'.downloads[f];
    NextProgresses(c, cat, n, e, n', f);
    PhiMonotone(n.net, d, n'.net, d');
    if Solicited(n, e, f) {
      var p, i := e.p, e.msg.idx;
      DataProgresses(c, cat, n, p, e.msg, n', f);
      assert Active(cat, n.net, n.store, f, d);
      assert Eligible(n.net, f, d, p, i);
      if i in d'.needed {
        assert (p, i) in Pairs(n.net, d) && (p, i) !in Pairs(n'.net, d');
      }
    }
  }

  /** Which of the events are solicited replies for `f`. */
  ghost function Hits(states: seq<Node>, events: seq<Event>, f: bytes): seq<bool>
    requires |states| == |events| + 1
  {
    seq(|events|, k requires 0 <= k < |events| => Solicited(states[k], events[k], f))
  }

  function CountTrue(hits: seq<bool>): nat {
    if hits == [] then 0 else CountTrue(hits[..|hits| - 1]) + if hits[|hits| - 1] then 1 else 0
  }

  /** How many of the first `k` events are solicited replies for `f`. */
  ghost function Replies(states: seq<Node>, events: seq<Event>, f: bytes, k: nat): nat
    requires |states| == |events| + 1 && k <= |events|
  {
    CountTrue(Hits(states, events, f)[..k])
  }

  ghost predicate NoNewSessions(events: seq<Event>) {
    forall k :: 0 <= k < |events| ==> !events[k].Attach?
  }

  /** A measure that never rises and drops at every hit bounds the number of hits. */
  lemma {:induction false} HitsBound(phis: seq<nat>, hits: seq<bool>, k: nat)
    requires k < |phis| && k <= |hits|
    requires forall j :: 0 <= j < k ==> phis[j + 1] + (if hits[j] then 1 else 0) <= phis[j]
    ensures CountTrue(hits[..k]) + phis[k] <= phis[0]
  {
    if k > 0 {
      HitsBound(phis, hits, k - 1);
      assert hits[..k][..k - 1] == hits[..k - 1];
    }
  }

  ghost function PhiOf(n: Node, f: bytes): nat {
    if f in n.downloads then Phi(n.net, n.downloads[f]) else 0
  }

  ghost function Phis(states: seq<Node>, f: bytes): seq<nat> {
    seq(|states|, j requires 0 <= j < |states| => PhiOf(states[j], f))
  }

  lemma PhiAt(c: Suite, cat: map<bytes, Body>, states: seq<Node>, events: seq<Event>, f: bytes, k: nat)
    requires Run(c, cat, states, events) && NoNewSessions(events) && k < |events|
    requires !Restarts(events[k], f)
    requires f in states[k].downloads && f in states[k + 1].downloads
    ensures PhiOf(states[k + 1], f) + (if Solicited(states[k], events[k], f) then 1 else 0) <= PhiOf(states[k], f)
  {
    RunKeepsInv(c, cat, states, events, k);
    assert StepOk(c, cat, states, events, k);
    PhiStep(c, cat, states[k], events[k], states[k + 1], f);
  }

  lemma HitAt(c: Suite, cat: map<bytes, Body>, states: seq<Node>, events: seq<Event>, f: bytes, j: nat)
    requires Run(c, cat, states, events) && NoNewSessions(events) && j < |events|
    requires !Restarts(events[j], f)
    requires f in states[j].downloads && f in states[j + 1].downloads
    ensures Phis(states, f)[j + 1] + (if Hits(states, events, f)[j] then 1 else 0) <= Phis(states, f)[j]
  {
    PhiAt(c, cat, states, events, f, j);
  }

  lemma RepliesBound(c: Suite, cat: map<bytes, Body>, states: seq<Node>, events: seq<Event>, f: bytes, k: nat)
    requires Run(c, cat, states, events) && NoNewSessions(events) && k < |states|
    requires StaysActive(states, events, f, 0, k)
    ensures Replies(states, events, f, k) + PhiOf(states[k], f) <= PhiOf(states[0], f)
  {
    var phis, hits := Phis(states, f), Hits(states, events, f);
    forall j | 0 <= j < k
      ensures phis[j + 1] + (if hits[j] then 1 else 0) <= phis[j]
    {
      HitAt(c, cat, states, events, f, j);
    }
    HitsBound(phis, hits, k);
  }

  /** A peer that stays, announced every wanted chunk, and has sent no bad copy of any. */
  ghost predicate Reliable(n: Node, f: bytes, q: Peer)
    requires f in n.downloads
  {
    && q in n.net.sessions
    && forall i :: i in n.downloads[f].needed ==> Says(n.net, f, q, i) && !Bad(n.downloads[f], q, i)
  }

  /** With a reliable peer and room for a request, something is in flight. */
  lemma NeverIdle(c: Suite, cat: map<bytes, Body>, n: Node, f: bytes, q: Peer)
    requires NodeInv(c, cat, n) && f in n.downloads && n.downloads[f].parallel > 0 && Reliable(n, f, q)
    ensures n.downloads[f].inFlight != map[]
  {
    var d := n.downloads[f];
    assert Active(cat, n.net, n.store, f, d);
    if d.inFlight == map[] {
      var i :| i in d.needed;
      assert Eligible(n.net, f, d, q, i);
    }
  }

  /** `q` behaves: it does not leave, and whatever it sends for `f` passes the checks. */
  ghost predicate Honest(c: Suite, n: Node, e: Event, f: bytes, q: Peer)
    requires f in n.downloads
  {
    && e != Closed(q)
    && (e.GotData? && e.p == q && q < |n.net.ids| && e.msg.fileId == f ==>
          Good(c, n.downloads[f].body, n.net.ids[q], e.msg))
  }

  /** What a peer sends from a store like its manifests, signed with its identity, passes every check. */
  lemma ServedIsGood(c: Suite, cat: map<bytes, Body>, sign: bytes -> bytes, id: bytes, s: S.Store, f: bytes, i: nat)
    requires StoreMatches(c, cat, s) && S.Has(s, f, i) && i < U32 && Digested(cat[f])
    requires forall m :: c.verify(sign(m), m, id)
    ensures Serve(c, sign, s, f, i).Some? && Good(c, cat[f], id, Serve(c, sign, s, f, i).value)
  {
    assert FileMatches(c, cat[f], s, f);
  }

  /** So a peer that runs this program is honest: its replies from such a store count as such. */
  lemma ServingIsHonest(c: Suite, cat: map<bytes, Body>, sign: bytes -> bytes, n: Node, q: Peer, s: S.Store, f: bytes, i: nat)
    requires NodeInv(c, cat, n) && f in n.downloads && q < |n.net.ids|
    requires StoreMatches(c, cat, s) && S.Has(s, f, i) && i < U32 && Digested(cat[f])
    requires forall m :: c.verify(sign(m), m, n.net.ids[q])
    ensures Serve(c, sign, s, f, i).Some? && Honest(c, n, GotData(q, Serve(c, sign, s, f, i).value), f, q)
  {
    ServedIsGood(c, cat, sign, n.net.ids[q], s, f, i);
    assert Active(cat, n.net, n.store, f, n.downloads[f]);
  }

  lemma NextSays(c: Suite, n: Node, e: Event, n': Node, f: bytes, q: Peer, i: nat)
    requires Next(c, n, e, n') && NetInv(n.net) && e != Closed(q) && q in n.net.sessions
    ensures q in n'.net.sessions
    ensures Says(n.net, f, q, i) ==> Says(n'.net, f, q, i)
  {
    match e
    case GotHave(p, g, bf) =>
      if KnownChunks(n, g).Some? {
        var nb := KnownChunks(n, g).value;
        AnnounceSays(n.net, p, g, (set j | j in S.ParseBitfield(bf, nb)), f, q, i);
      }
    case GotPiece(p, g, j) => AnnounceSays(n.net, p, g, {j}, f, q, i);
    case _ =>
  }

  lemma AnnounceSays(net: Net, p: Peer, g: bytes, indices: set<nat>, f: bytes, q: Peer, i: nat)
    ensures Says(net, f, q, i) ==> Says(Announce(net, p, g, indices), f, q, i)
  {}

  lemma ReliableStep(c: Suite, cat: map<bytes, Body>, n: Node, e: Event, n': Node, f: bytes, q: Peer)
    requires NodeInv(c, cat, n) && Enabled(c, cat, n, e) && Next(c, n, e, n')
    requires !Restarts(e, f)
    requires f in n.downloads && f in n'.downloads && Reliable(n, f, q) && Honest(c, n, e, f, q)
    ensures Reliable(n', f, q)
  {
    NextProgresses(c, cat, n, e, n', f);
    if e.GotData? {
      DataProgresses(c, cat, n, e.p, e.msg, n', f);
    } else {
      OtherProgresses(c, n, e, n', f);
    }
    NextSays(c, n, e, n', f, q, 0);
    forall i | i in n'.downloads[f].needed
      ensures Says(n'.net, f, q, i) && !Bad(n'.downloads[f], q, i)
    {
      NextSays(c, n, e, n', f, q, i);
    }
  }

  lemma ReliableAt(c: Suite, cat: map<bytes, Body>, states: seq<Node>, events: seq<Event>, f: bytes, q: Peer, k: nat)
    requires Run(c, cat, states, events) && k < |events|
    requires !Restarts(events[k], f)
    requires f in states[k].downloads && f in states[k + 1].downloads
    requires Reliable(states[k], f, q) && Honest(c, states[k], events[k], f, q)
    ensures Reliable(states[k + 1], f, q)
  {
    RunKeepsInv(c, cat, states, events, k);
    assert StepOk(c, cat, states, events, k);
    ReliableStep(c, cat, states[k], events[k], states[k + 1], f, q);
  }

  lemma {:induction false} ReliableRun(c: Suite, cat: map<bytes, Body>, states: seq<Node>, events: seq<Event>, f: bytes, q: Peer, k: nat)
    requires Run(c, cat, states, events) && k < |states| && StaysActive(states, events, f, 0, k)
    requires Reliable(states[0], f, q)
    requires forall j :: 0 <= j < k ==> Honest(c, states[j], events[j], f, q)
    ensures Reliable(states[k], f, q)
  {
    if k > 0 {
      ReliableRun(c, cat, states, events, f, q, k - 1);
      ReliableAt(c, cat, states, events, f, q, k - 1);
    }
  }

  /**
   * Convergence. In a run without new sessions, started with `parallel > 0` and with one honest peer that
   * announced every wanted chunk and stays: as long as the download is active a request is in flight, and
   * fewer than `nb * (1 + |sessions|)` solicited replies have been received. So after that many the
   * download has completed, timeouts, corrupt copies and departures of other peers notwithstanding.
   */
  lemma Convergence(c: Suite, cat: map<bytes, Body>, states: seq<Node>, events: seq<Event>, f: bytes, q: Peer, k: nat)
    requires Run(c, cat, states, events) && NoNewSessions(events) && k < |states|
    requires StaysActive(states, events, f, 0, k)
    requires Reliable(states[0], f, q) && states[0].downloads[f].parallel > 0
    requires forall j :: 0 <= j < k ==> Honest(c, states[j], events[j], f, q)
    ensures states[k].downloads[f].inFlight != map[]
    ensures Replies(states, events, f, k) < states[0].downloads[f].body.nbChunks * (1 + |states[0].net.sessions|)
  {
    ReliableRun(c, cat, states, events, f, q, k);
    ParallelStays(c, cat, states, events, f, k);
    RunKeepsInv(c, cat, states, events, k);
    NeverIdle(c, cat, states[k], f, q);
    RepliesFew(c, cat, states, events, f, k);
  }

  lemma RepliesFew(c: Suite, cat: map<bytes, Body>, states: seq<Node>, events: seq<Event>, f: bytes, k: nat)
    requires Run(c, cat, states, events) && NoNewSessions(events) && k < |states|
    requires StaysActive(states, events, f, 0, k)
    ensures Replies(states, events, f, k) < states[0].downloads[f].body.nbChunks * (1 + |states[0].net.sessions|)
  {
    RepliesBound(c, cat, states, events, f, k);
    RunKeepsInv(c, cat, states, events, k);
    PhiStart(c, cat, states[0], f);
    PhiPositive(c, cat, states[k], f);
  }

  lemma PhiStart(c: Suite, cat: map<bytes, Body>, n: Node, f: bytes)
    requires NodeInv(c, cat, n) && f in n.downloads
    ensures PhiOf(n, f) <= n.downloads[f].body.nbChunks * (1 + |n.net.sessions|)
  {
    assert Active(cat, n.net, n.store, f, n.downloads[f]);
    PhiBound(n.net, n.downloads[f], n.downloads[f].body.nbChunks);
  }

  lemma PhiPositive(c: Suite, cat: map<bytes, Body>, n: Node, f: bytes)
    requires NodeInv(c, cat, n) && f in n.downloads
    ensures PhiOf(n, f) > 0
  {
    assert Active(cat, n.net, n.store, f, n.downloads[f]);
    assert |n.downloads[f].needed| > 0;
  }

  lemma {:induction false} ParallelStays(c: Suite, cat: map<bytes, Body>, states: seq<Node>, events: seq<Event>, f: bytes, k: nat)
    requires Run(c, cat, states, events) && k < |states| && StaysActive(states, events, f, 0, k)
    ensures states[k].downloads[f].parallel == states[0].downloads[f].parallel
  {
    StagesImprove(c, cat, states, events, f, 0, k);
    ImprovedLast(Stages(states, events, f, 0, k), 0, 0);
  }
}
