/** The file node as an object whose methods update its tables (src/file/fileNode.js). */
module FileNodeObject {
  import opened Bytes
  import opened Manifest
  import opened Download
  import opened N = FileNode
  import S = ChunkStore

  /** The availability table after the first `p` peers and the indices `done` of the next one. */
  function Tally(net: Net, f: bytes, d: Download, p: nat, done: set<nat>): map<nat, nat> {
    map i | i in d.needed && i !in d.inFlight && CountUpTo(net, f, i, p) + (if i in done then 1 else 0) > 0
      :: CountUpTo(net, f, i, p) + if i in done then 1 else 0
  }

  lemma TallyNext(net: Net, f: bytes, d: Download, p: nat)
    ensures Tally(net, f, d, p + 1, {})
         == Tally(net, f, d, p, if p in net.have && f in net.have[p] then net.have[p][f] else {})
  {}

  /** One more peer counted for `i`, when `i` is wanted and idle. */
  function TallyStep(t: map<nat, nat>, counts: bool, i: nat): map<nat, nat> {
    if counts then t[i := (if i in t then t[i] else 0) + 1] else t
  }

  lemma TallyOne(net: Net, f: bytes, d: Download, p: nat, done: set<nat>, i: nat)
    requires i !in done
    ensures Tally(net, f, d, p, done + {i})
         == TallyStep(Tally(net, f, d, p, done), i in d.needed && i !in d.inFlight, i)
  {}

  /** The sort of the candidates: rising counts, ties in any order. */
  method SortByCount(count: map<nat, nat>) returns (order: seq<nat>)
    ensures forall i :: i in count <==> i in order
    ensures forall a, b :: 0 <= a < b < |order| ==> order[a] != order[b]
    ensures forall a, b :: 0 <= a < b < |order| ==> count[order[a]] <= count[order[b]]
  {
    order := [];
    var left := count.Keys;
    while left != {}
      invariant left <= count.Keys
      invariant forall i :: i in count <==> i in order || i in left
      invariant forall i :: i in order ==> i !in left
      invariant forall a, b :: 0 <= a < b < |order| ==> order[a] != order[b]
      invariant forall a, b :: 0 <= a < b < |order| ==> count[order[a]] <= count[order[b]]
      invariant forall i, a :: i in left && 0 <= a < |order| ==> count[order[a]] <= count[i]
      decreases left
    {
      ghost var least := Least(count, left);
      var i :| i in left && forall j :: j in left ==> count[i] <= count[j];
      order := order + [i];
      left := left - {i};
    }
  }

  lemma {:induction false} Least(count: map<nat, nat>, left: set<nat>) returns (m: nat)
    requires left != {} && left <= count.Keys
    ensures m in left && forall j :: j in left ==> count[m] <= count[j]
    decreases left
  {
    m :| m in left;
    if left != {m} {
      var k := Least(count, left - {m});
      m := if count[m] <= count[k] then m else k;
    }
  }

  lemma DropHead<T>(s: seq<T>, k: nat)
    requires k < |s|
    ensures s[k..][0] == s[k] && s[k..][1..] == s[k + 1..]
  {}

  /** The downloads during `_onClose`: those outside `todo` have lost the peer and been rescheduled. */
  ghost predicate Dropped(net: Net, was: map<bytes, Download>, p: Peer, todo: set<bytes>, now: map<bytes, Download>) {
    && now.Keys == was.Keys && todo <= now.Keys
    && (forall f :: f in todo ==> now[f] == was[f])
    && (forall f :: f in now && f !in todo ==> Scheduled(net, f, DropPeer(was[f], p), now[f]))
  }

  lemma DropNext(net: Net, was: map<bytes, Download>, p: Peer, todo: set<bytes>, now: map<bytes, Download>,
                 f: bytes, d: Download)
    requires Dropped(net, was, p, todo, now) && f in todo
    requires Scheduled(net, f, DropPeer(was[f], p), d)
    ensures Dropped(net, was, p, todo - {f}, now[f := d])
  {}

  class FileNode {
    const suite: Suite
    const store: S.ChunkStore
    var net: Net
    var manifests: map<bytes, Body>
    var downloads: map<bytes, Download>
    var outcomes: seq<Outcome>

    constructor (suite: Suite, store: S.ChunkStore)
      requires store.sha == suite.sha
      ensures this.suite == suite && this.store == store
      ensures State() == NewNode(store.State())
    {
      this.suite, this.store := suite, store;
      net, manifests, downloads, outcomes := Net([], {}, map[]), map[], map[], [];
    }

    function State(): Node
      reads this, store
    {
      Node(net, manifests, downloads, store.State(), outcomes)
    }

    /** The store hashes with the node's SHA-256. */
    ghost predicate Wired() {
      store.sha == suite.sha
    }

    // ---- Scheduling ----

    /** `_availabilityCount` */
    method AvailabilityCount(f: bytes, d: Download) returns (count: map<nat, nat>)
      ensures count == map i | i in Candidates(net, f, d) :: Count(net, f, i)
    {
      count := map[];
      for p := 0 to |net.ids|
        invariant count == Tally(net, f, d, p, {})
      {
        TallyNext(net, f, d, p);
        if p in net.have && f in net.have[p] {
          var said := net.have[p][f];
          var todo := said;
          while todo != {}
            invariant todo <= said && count == Tally(net, f, d, p, said - todo)
            decreases todo
          {
            var i :| i in todo;
            TallyOne(net, f, d, p, said - todo, i);
            assert said - (todo - {i}) == (said - todo) + {i};
            if i in d.needed && i !in d.inFlight {
              count := count[i := (if i in count then count[i] else 0) + 1];
            }
            todo := todo - {i};
          }
          assert said - {} == said;
        }
      }
    }

    /** `_peersForChunk` */
    method Peers(f: bytes, d: Download, i: nat) returns (peers: seq<Peer>)
      ensures peers == PeersForChunk(net, f, d, i)
    {
      peers := [];
      for p := 0 to |net.ids|
        invariant peers == PeersUpTo(net, f, d, i, p)
      {
        if Eligible(net, f, d, p, i) {
          peers := peers + [p];
        }
      }
    }

    /** `_inFlightForPeer` */
    method InFlightForPeer(d: Download, p: Peer) returns (n: nat)
      ensures n == Load(d, p)
    {
      n := 0;
      ghost var seen: set<nat> := {};
      var todo := d.inFlight.Keys;
      while todo != {}
        invariant todo <= d.inFlight.Keys
        invariant seen == set i | i in d.inFlight && i !in todo && d.inFlight[i] == p
        invariant n == |seen|
        decreases todo
      {
        var i :| i in todo;
        if d.inFlight[i] == p {
          n := n + 1;
          seen := seen + {i};
        }
        todo := todo - {i};
      }
      assert seen == FlightsOf(d, p);
    }

    /** The first peer after `peers.sort` by requests in flight, a stable sort. */
    method LeastLoadedPeer(d: Download, peers: seq<Peer>) returns (best: Peer)
      requires peers != []
      ensures best == LeastLoaded(d, peers)
    {
      best := peers[0];
      var load := InFlightForPeer(d, best);
      assert peers[..1] == [best];
      for k := 1 to |peers|
        invariant best == LeastLoaded(d, peers[..k]) && load == Load(d, best)
      {
        assert peers[..k + 1][..k] == peers[..k];
        var l := InFlightForPeer(d, peers[k]);
        if l < load {
          best, load := peers[k], l;
        }
      }
      assert peers[..|peers|] == peers;
    }

    /** The loop of `_schedule` over the candidates, rarest first. */
    method Ask(f: bytes, d: Download) returns (d': Download)
      ensures Scheduled(net, f, d, d')
    {
      d' := d;
      var count := AvailabilityCount(f, d);
      var order := SortByCount(count);
      assert RarestOrder(net, f, Candidates(net, f, d), order);
      var k := 0;
      assert order[0..] == order;
      while k < |order|
        invariant k <= |order|
        invariant Request(net, f, d, order) == Request(net, f, d', order[k..])
      {
        if |d'.inFlight| >= d'.parallel {
          break;
        }
        DropHead(order, k);
        var i := order[k];
        if i !in d'.inFlight {
          var peers := Peers(f, d', i);
          if peers != [] {
            var p := LeastLoadedPeer(d', peers);
            d' := d'.(inFlight := d'.inFlight[i := p]);
          }
        }
        k := k + 1;
      }
    }

    /** `_schedule` */
    method Schedule(f: bytes)
      modifies this`downloads
      ensures Rescheduled(old(State()), f, State())
    {
      if f in downloads {
        var d := Ask(f, downloads[f]);
        downloads := downloads[f := d];
      }
    }

    // ---- Events ----

    /** `attachSession` */
    method AttachSession(id: bytes) returns (p: Peer)
      modifies this`net
      ensures p == |old(net).ids| && Next(suite, old(State()), Attach(id), State())
    {
      p := |net.ids|;
      net := Net(net.ids + [id], net.sessions + {p}, net.have[p := map[]]);
    }

    /** `registerManifest` */
    method RegisterManifest(b: Body)
      modifies this`manifests, store
      ensures State() == Register(old(State()), b)
    {
      manifests := manifests[b.fileId := b];
      store.RegisterManifest(b);
    }

    method OnManifest(m: Manifest)
      modifies this`manifests, store
      ensures Next(suite, old(State()), GotManifest(m), State())
    {
      if VerifyManifest(suite, m) {
        RegisterManifest(m.body);
      }
    }

    method OnHave(p: Peer, f: bytes, bf: S.bits)
      modifies this
      ensures Next(suite, old(State()), GotHave(p, f, bf), State())
    {
      var nb: nat;
      if f in manifests {
        nb := manifests[f].nbChunks;
      } else if f in store.files {
        nb := store.files[f].nbChunks;
      } else {
        return;
      }
      var indices := store.Parse(bf, nb);
      net := Announce(net, p, f, set i | i in indices);
      Schedule(f);
    }

    method OnHavePiece(p: Peer, f: bytes, i: nat)
      modifies this
      ensures Next(suite, old(State()), GotPiece(p, f, i), State())
    {
      net := Announce(net, p, f, {i});
      Schedule(f);
    }

    /** `_onTimeout` */
    method OnTimeout(f: bytes, i: nat)
      modifies this
      ensures Next(suite, old(State()), Timeout(f, i), State())
    {
      if f !in downloads || i !in downloads[f].inFlight {
        return;
      }
      downloads := downloads[f := Unrequest(downloads[f], i)];
      Schedule(f);
    }

    /** `_onChunkData` */
    method OnChunkData(p: Peer, m: Data)
      requires Wired() && p < |net.ids|
      modifies this, store
      ensures Next(suite, old(State()), GotData(p, m), State())
    {
      var f := m.fileId;
      if f !in downloads {
        return;
      }
      var d := downloads[f];
      var good := Good(suite, d.body, net.ids[p], m);
      d := Unrequest(d, m.idx);
      if !good {
        d := MarkBad(d, p, m.idx);
        downloads := downloads[f := d];
        Schedule(f);
        return;
      }
      var r := store.PutChunk(f, m.idx, m.data, d.body.chunks[m.idx].hash);
      if r.NoDirectory? {
        downloads := downloads[f := d];
        return;
      }
      d := d.(needed := d.needed - {m.idx}, received := d.received + 1);
      downloads := downloads[f := d];
      assert State() == Accept(suite, old(State()), m);
      if d.needed == {} {
        Complete(f);
      } else {
        Schedule(f);
      }
    }

    /** `_complete` */
    method Complete(f: bytes)
      requires Wired() && f in downloads
      modifies this`downloads, this`outcomes
      ensures State() == Finish(suite, old(State()), f)
    {
      var r := store.Assemble(f);
      if r.Some? {
        outcomes := outcomes + [Assembled(f, r.value.0, r.value.1, r.value.1 == downloads[f].body.fileId)];
      } else {
        outcomes := outcomes + [Rejected(f)];
      }
      downloads := downloads - {f};
    }

    /** `download`, up to its first scheduling. */
    method StartDownload(b: Body, parallel: nat)
      requires Wired()
      modifies this, store
      ensures Next(suite, old(State()), Start(b, parallel), State())
    {
      RegisterManifest(b);
      var needed: set<nat> := {};
      for i := 0 to b.nbChunks
        invariant needed == set j | 0 <= j < i && !S.Has(store.State(), b.fileId, j)
      {
        if !S.Has(store.State(), b.fileId, i) {
          needed := needed + {i};
        }
      }
      assert needed == Missing(store.State(), b);
      BelowSize(needed, b.nbChunks);
      downloads := downloads[b.fileId := Download(b, needed, map[], map[], parallel, b.nbChunks - |needed|)];
      assert State() == Opened(old(State()), b, parallel);
      if needed == {} {
        Complete(b.fileId);
      } else {
        Schedule(b.fileId);
      }
    }

    /** `seed`, given the buffers its reads returned. */
    method SeedFile(b: Body, bufs: seq<bytes>)
      requires Wired() && |bufs| == |b.chunks|
      modifies this`manifests, store
      ensures Next(suite, old(State()), Seed(b, bufs), State())
    {
      RegisterManifest(b);
      ghost var n1 := State();
      for i := 0 to |bufs|
        invariant State() == n1.(store := SeedStore(suite, n1.store, b, bufs, i))
      {
        var r := store.PutChunk(b.fileId, i, bufs[i], b.chunks[i].hash);
      }
    }

    /** The requests of one download that were made to a departed peer are dropped. */
    method DropRequests(d: Download, p: Peer) returns (d': Download)
      ensures d' == DropPeer(d, p)
    {
      d' := d;
      var todo := d.inFlight.Keys;
      while todo != {}
        invariant todo <= d.inFlight.Keys
        invariant d' == d.(inFlight := map i | i in d.inFlight && (i in todo || d.inFlight[i] != p) :: d.inFlight[i])
        decreases todo
      {
        var i :| i in todo;
        if d.inFlight[i] == p {
          d' := d'.(inFlight := d'.inFlight - {i});
        }
        todo := todo - {i};
      }
    }

    /** What the departure of a peer does to one download. */
    method Release(f: bytes, p: Peer)
      requires f in downloads
      modifies this`downloads
      ensures f in downloads && downloads == old(downloads)[f := downloads[f]]
      ensures Scheduled(net, f, DropPeer(old(downloads)[f], p), downloads[f])
    {
      ghost var was := downloads;
      var d := DropRequests(downloads[f], p);
      downloads := downloads[f := d];
      Schedule(f);
      assert downloads == was[f := d][f := downloads[f]] == was[f := downloads[f]];
    }

    /** `_onClose` */
    method OnClose(p: Peer)
      modifies this`net, this`downloads
      ensures Next(suite, old(State()), Closed(p), State())
    {
      net := Detach(net, p);
      ghost var was := downloads;
      var todo := downloads.Keys;
      while todo != {}
        invariant net == Detach(old(net), p)
        invariant Dropped(net, was, p, todo, downloads)
        decreases todo
      {
        var f :| f in todo;
        ghost var now := downloads;
        Release(f, p);
        DropNext(net, was, p, todo, now, f, downloads[f]);
        todo := todo - {f};
      }
    }
  }
}
