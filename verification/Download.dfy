/**
 * One multi-source download (the scheduling part of src/file/fileNode.js): which chunks are wanted,
 * which are in flight and from whom, and which peers sent a bad copy of which chunk.
 */
module Download {
  import opened Bytes
  import opened Manifest

  /** Sessions are numbered in the order they were attached (the suffix of their key). */
  type Peer = nat

  /** Who was ever attached, who still is, and what each announced, file by file. */
  datatype Net = Net(ids: seq<bytes>, sessions: set<Peer>, have: map<Peer, map<bytes, set<nat>>>)

  ghost predicate NetInv(net: Net) {
    && (forall p :: p in net.sessions ==> p < |net.ids|)
    && (forall p :: p in net.have ==> p < |net.ids|)
  }

  datatype Download = Download(body: Body, needed: set<nat>, inFlight: map<nat, Peer>, bad: map<nat, set<Peer>>,
                               parallel: nat, received: nat)

  predicate Says(net: Net, f: bytes, p: Peer, i: nat) {
    p in net.have && f in net.have[p] && i in net.have[p][f]
  }

  predicate Bad(d: Download, p: Peer, i: nat) {
    i in d.bad && p in d.bad[i]
  }

  /** A peer that may be asked for chunk `i`. */
  predicate Eligible(net: Net, f: bytes, d: Download, p: Peer, i: nat) {
    p in net.sessions && Says(net, f, p, i) && !Bad(d, p, i)
  }

  ghost predicate Servable(net: Net, f: bytes, d: Download, i: nat) {
    exists p :: Eligible(net, f, d, p, i)
  }

  // ---- _availabilityCount, _peersForChunk, _inFlightForPeer ----

  /** How many of the first `n` peers announced chunk `i`. */
  function CountUpTo(net: Net, f: bytes, i: nat, n: nat): nat {
    if n == 0 then 0 else CountUpTo(net, f, i, n - 1) + if Says(net, f, n - 1, i) then 1 else 0
  }

  function Count(net: Net, f: bytes, i: nat): nat {
    CountUpTo(net, f, i, |net.ids|)
  }

  /** Chunks wanted, not in flight, and announced by somebody. */
  function Candidates(net: Net, f: bytes, d: Download): set<nat> {
    set i | i in d.needed && i !in d.inFlight && Count(net, f, i) > 0
  }

  function PeersUpTo(net: Net, f: bytes, d: Download, i: nat, n: nat): seq<Peer> {
    if n == 0 then []
    else PeersUpTo(net, f, d, i, n - 1) + if Eligible(net, f, d, n - 1, i) then [n - 1] else []
  }

  /** The peers that may serve chunk `i`, in the order they were attached. */
  function PeersForChunk(net: Net, f: bytes, d: Download, i: nat): seq<Peer> {
    PeersUpTo(net, f, d, i, |net.ids|)
  }

  /** The chunks in flight from a peer. */
  function FlightsOf(d: Download, p: Peer): set<nat> {
    set i | i in d.inFlight && d.inFlight[i] == p
  }

  function Load(d: Download, p: Peer): nat {
    |FlightsOf(d, p)|
  }

  /** The head of the list after a stable sort by load: the first peer of least load. */
  function LeastLoaded(d: Download, peers: seq<Peer>): Peer
    requires peers != []
  {
    var last := peers[|peers| - 1];
    if |peers| == 1 then last
    else
      var q := LeastLoaded(d, peers[..|peers| - 1]);
      if Load(d, last) < Load(d, q) then last else q
  }

  lemma {:induction false} PeersUpToMembers(net: Net, f: bytes, d: Download, i: nat, n: nat)
    ensures forall p: Peer :: p in PeersUpTo(net, f, d, i, n) <==> p < n && Eligible(net, f, d, p, i)
  {
    if n > 0 {
      PeersUpToMembers(net, f, d, i, n - 1);
    }
  }

  lemma PeersMembers(net: Net, f: bytes, d: Download, i: nat)
    requires NetInv(net)
    ensures forall p: Peer :: p in PeersForChunk(net, f, d, i) <==> Eligible(net, f, d, p, i)
    ensures PeersForChunk(net, f, d, i) == [] <==> !Servable(net, f, d, i)
  {
    PeersUpToMembers(net, f, d, i, |net.ids|);
    if PeersForChunk(net, f, d, i) != [] {
      assert PeersForChunk(net, f, d, i)[0] in PeersForChunk(net, f, d, i);
    }
  }

  lemma {:induction false} LeastLoadedIsLeast(d: Download, peers: seq<Peer>)
    requires peers != []
    ensures LeastLoaded(d, peers) in peers
    ensures forall p :: p in peers ==> Load(d, LeastLoaded(d, peers)) <= Load(d, p)
  {
    var front, last := peers[..|peers| - 1], peers[|peers| - 1];
    assert peers == front + [last];
    if |peers| > 1 {
      LeastLoadedIsLeast(d, front);
    }
  }

  /** The peers that announced chunk `i`. */
  function Announcers(net: Net, f: bytes, i: nat): set<Peer> {
    set p | p in net.have && Says(net, f, p, i)
  }

  lemma {:induction false} CountUpToIs(net: Net, f: bytes, i: nat, n: nat)
    ensures CountUpTo(net, f, i, n) == |set p | p in Announcers(net, f, i) && p < n|
  {
    var below := set p | p in Announcers(net, f, i) && p < n;
    if n > 0 {
      var fewer := set p | p in Announcers(net, f, i) && p < n - 1;
      CountUpToIs(net, f, i, n - 1);
      assert below == if Says(net, f, n - 1, i) then fewer + {n - 1} else fewer;
    } else {
      assert below == {};
    }
  }

  /** The availability of a chunk is the number of peers that announced it. */
  lemma CountIs(net: Net, f: bytes, i: nat)
    requires NetInv(net)
    ensures Count(net, f, i) == |Announcers(net, f, i)|
  {
    CountUpToIs(net, f, i, |net.ids|);
    assert Announcers(net, f, i) == set p | p in Announcers(net, f, i) && p < |net.ids|;
  }

  /** The peer chosen is the first of least load: those before it in the list all have more to do. */
  lemma {:induction false} LeastLoadedIsFirst(d: Download, peers: seq<Peer>) returns (k: nat)
    requires peers != []
    ensures k < |peers| && peers[k] == LeastLoaded(d, peers)
    ensures forall j :: 0 <= j < k ==> Load(d, peers[j]) > Load(d, peers[k])
    ensures forall j :: 0 <= j < |peers| ==> Load(d, peers[j]) >= Load(d, peers[k])
  {
    var front, last := peers[..|peers| - 1], peers[|peers| - 1];
    k := 0;
    if |peers| > 1 {
      k := LeastLoadedIsFirst(d, front);
      assert forall j :: 0 <= j < |front| ==> front[j] == peers[j];
      if Load(d, last) < Load(d, front[k]) {
        k := |peers| - 1;
      }
    }
  }

  lemma {:induction false} CountPositive(net: Net, f: bytes, i: nat, n: nat)
    ensures CountUpTo(net, f, i, n) > 0 <==> exists p: Peer :: p < n && Says(net, f, p, i)
  {
    if n > 0 {
      CountPositive(net, f, i, n - 1);
      if CountUpTo(net, f, i, n) > 0 && CountUpTo(net, f, i, n - 1) == 0 {
        assert Says(net, f, n - 1, i);
      }
    }
  }

  // ---- _schedule ----

  /** A sort by rising availability; chunks of equal availability come in any order. */
  ghost predicate RarestOrder(net: Net, f: bytes, cands: set<nat>, order: seq<nat>) {
    && (forall i :: i in cands <==> i in order)
    && (forall a, b :: 0 <= a < b < |order| ==> order[a] != order[b])
    && (forall a, b :: 0 <= a < b < |order| ==> Count(net, f, order[a]) <= Count(net, f, order[b]))
  }

  /** The loop over the sorted candidates. */
  function Request(net: Net, f: bytes, d: Download, order: seq<nat>): Download
    decreases |order|
  {
    if order == [] || |d.inFlight| >= d.parallel then d
    else
      var i, peers := order[0], PeersForChunk(net, f, d, order[0]);
      if i in d.inFlight || peers == [] then Request(net, f, d, order[1..])
      else Request(net, f, d.(inFlight := d.inFlight[i := LeastLoaded(d, peers)]), order[1..])
  }

  ghost predicate Scheduled(net: Net, f: bytes, d: Download, d': Download) {
    exists order :: RarestOrder(net, f, Candidates(net, f, d), order) && d' == Request(net, f, d, order)
  }

  // ---- The in-flight table ----

  ghost predicate TableInv(net: Net, f: bytes, d: Download) {
    && (forall i :: i in d.needed ==> i < d.body.nbChunks)
    && d.inFlight.Keys <= d.needed
    && |d.inFlight| <= d.parallel
    && (forall i :: i in d.inFlight ==> Eligible(net, f, d, d.inFlight[i], i))
  }

  /** One more request, to a peer that may serve it. */
  lemma AskKeepsTable(net: Net, f: bytes, d: Download, i: nat, p: Peer)
    requires TableInv(net, f, d) && i in d.needed && |d.inFlight| < d.parallel && i !in d.inFlight
    requires Eligible(net, f, d, p, i)
    ensures TableInv(net, f, d.(inFlight := d.inFlight[i := p]))
  {
    var d1 := d.(inFlight := d.inFlight[i := p]);
    assert d1.inFlight.Keys == d.inFlight.Keys + {i};
    forall k | k in d1.inFlight
      ensures Eligible(net, f, d1, d1.inFlight[k], k)
    {
      assert Eligible(net, f, d, d1.inFlight[k], k);
    }
  }

  /** `d'` is `d` with some more requests. */
  ghost predicate Extends(d: Download, d': Download) {
    && d' == d.(inFlight := d'.inFlight)
    && forall i :: i in d.inFlight ==> i in d'.inFlight && d'.inFlight[i] == d.inFlight[i]
  }

  lemma {:induction false} RequestKeepsTable(net: Net, f: bytes, d: Download, order: seq<nat>)
    requires NetInv(net) && TableInv(net, f, d)
    requires forall i :: i in order ==> i in d.needed
    ensures TableInv(net, f, Request(net, f, d, order)) && Extends(d, Request(net, f, d, order))
    decreases |order|
  {
    if order != [] && |d.inFlight| < d.parallel {
      var i, peers := order[0], PeersForChunk(net, f, d, order[0]);
      assert i in order && forall j :: j in order[1..] ==> j in order;
      PeersMembers(net, f, d, i);
      if i in d.inFlight || peers == [] {
        RequestKeepsTable(net, f, d, order[1..]);
      } else {
        LeastLoadedIsLeast(d, peers);
        AskKeepsTable(net, f, d, i, LeastLoaded(d, peers));
        RequestKeepsTable(net, f, d.(inFlight := d.inFlight[i := LeastLoaded(d, peers)]), order[1..]);
      }
    }
  }

  /** Nothing that could be asked for is left idle. */
  ghost predicate Conserves(net: Net, f: bytes, d: Download) {
    |d.inFlight| >= d.parallel
    || forall i :: i in d.needed && i !in d.inFlight ==> !Servable(net, f, d, i)
  }

  lemma {:induction false} RequestServes(net: Net, f: bytes, d: Download, order: seq<nat>, i: nat)
    requires NetInv(net) && i in order
    ensures var d' := Request(net, f, d, order);
            |d'.inFlight| >= d.parallel || i in d'.inFlight || !Servable(net, f, d, i)
    ensures forall k :: k in d.inFlight ==> k in Request(net, f, d, order).inFlight
    decreases |order|
  {
    if |d.inFlight| < d.parallel {
      var h, peers := order[0], PeersForChunk(net, f, d, order[0]);
      PeersMembers(net, f, d, h);
      var d1 := if h in d.inFlight || peers == [] then d
                else d.(inFlight := d.inFlight[h := LeastLoaded(d, peers)]);
      assert forall p: Peer, j: nat :: Eligible(net, f, d1, p, j) <==> Eligible(net, f, d, p, j);
      if i != h {
        assert i in order[1..];
        RequestServes(net, f, d1, order[1..], i);
        assert Servable(net, f, d, i) ==> Servable(net, f, d1, i);
      } else {
        RequestGrows(net, f, d1, order[1..]);
      }
    }
    RequestGrows(net, f, d, order);
  }

  lemma {:induction false} RequestGrows(net: Net, f: bytes, d: Download, order: seq<nat>)
    ensures forall k :: k in d.inFlight ==>
              k in Request(net, f, d, order).inFlight && Request(net, f, d, order).inFlight[k] == d.inFlight[k]
    decreases |order|
  {
    if order != [] && |d.inFlight| < d.parallel {
      var h, peers := order[0], PeersForChunk(net, f, d, order[0]);
      var d1 := if h in d.inFlight || peers == [] then d
                else d.(inFlight := d.inFlight[h := LeastLoaded(d, peers)]);
      RequestGrows(net, f, d1, order[1..]);
    }
  }

  /**
   * Scheduling keeps the in-flight table sound, adds requests without touching the others, and leaves
   * no servable chunk idle while there is room.
   */
  lemma ScheduledKeeps(net: Net, f: bytes, d: Download, d': Download)
    requires NetInv(net) && TableInv(net, f, d) && Scheduled(net, f, d, d')
    ensures TableInv(net, f, d') && Conserves(net, f, d')
    ensures Extends(d, d')
  {
    var cands := Candidates(net, f, d);
    var order :| RarestOrder(net, f, cands, order) && d' == Request(net, f, d, order);
    RequestKeepsTable(net, f, d, order);
    if |d'.inFlight| < d'.parallel {
      forall i | i in d'.needed && i !in d'.inFlight
        ensures !Servable(net, f, d', i)
      {
        CountPositive(net, f, i, |net.ids|);
        if i in cands {
          assert i in order;
          RequestServes(net, f, d, order, i);
        }
        assert forall p: Peer :: Eligible(net, f, d', p, i) ==> Eligible(net, f, d, p, i) && Says(net, f, p, i);
      }
    }
  }

  lemma {:induction false} RequestOnlyFlights(net: Net, f: bytes, d: Download, order: seq<nat>)
    ensures Request(net, f, d, order) == d.(inFlight := Request(net, f, d, order).inFlight)
    decreases |order|
  {
    if order != [] && |d.inFlight| < d.parallel {
      var h, peers := order[0], PeersForChunk(net, f, d, order[0]);
      var d1 := if h in d.inFlight || peers == [] then d
                else d.(inFlight := d.inFlight[h := LeastLoaded(d, peers)]);
      RequestOnlyFlights(net, f, d1, order[1..]);
    }
  }

  /** Scheduling changes nothing but the in-flight table. */
  lemma ScheduledOnlyFlights(net: Net, f: bytes, d: Download, d': Download)
    requires Scheduled(net, f, d, d')
    ensures d' == d.(inFlight := d'.inFlight)
  {
    var order :| RarestOrder(net, f, Candidates(net, f, d), order) && d' == Request(net, f, d, order);
    RequestOnlyFlights(net, f, d, order);
  }

  // ---- Rarest first ----

  lemma {:induction false} RequestRarest(net: Net, f: bytes, d: Download, order: seq<nat>, i: nat, j: nat)
    requires NetInv(net)
    requires forall a, b :: 0 <= a < b < |order| ==> Count(net, f, order[a]) <= Count(net, f, order[b])
    requires i in Request(net, f, d, order).inFlight && i !in d.inFlight
    requires j in order && j !in Request(net, f, d, order).inFlight && Servable(net, f, d, j)
    ensures Count(net, f, i) <= Count(net, f, j)
    decreases |order|
  {
    if |d.inFlight| < d.parallel {
      var h, peers := order[0], PeersForChunk(net, f, d, order[0]);
      PeersMembers(net, f, d, h);
      var d1 := if h in d.inFlight || peers == [] then d
                else d.(inFlight := d.inFlight[h := LeastLoaded(d, peers)]);
      RequestGrows(net, f, d1, order[1..]);
      assert j != h;
      assert j in order[1..];
      if i == h {
        var k :| 0 <= k < |order| && order[k] == j;
      } else {
        var p :| Eligible(net, f, d, p, j);
        assert Eligible(net, f, d1, p, j);
        RequestRarest(net, f, d1, order[1..], i, j);
      }
    }
  }

  /**
   * Rarest first. Whatever the tie-breaking, every chunk a scheduling call asks for is announced by no
   * more peers than any servable chunk it leaves out.
   */
  lemma RarestFirst(net: Net, f: bytes, d: Download, d': Download, i: nat, j: nat)
    requires NetInv(net) && Scheduled(net, f, d, d')
    requires i in d'.inFlight && i !in d.inFlight
    requires j in d'.needed && j !in d'.inFlight && d'.needed == d.needed && Servable(net, f, d, j)
    ensures Count(net, f, i) <= Count(net, f, j)
  {
    var order :| RarestOrder(net, f, Candidates(net, f, d), order) && d' == Request(net, f, d, order);
    RequestGrows(net, f, d, order);
    CountPositive(net, f, j, |net.ids|);
    assert j in Candidates(net, f, d);
    RequestRarest(net, f, d, order, i, j);
  }

  // ---- Asking for one chunk ----

  lemma {:induction false} RequestOnlyServable(net: Net, f: bytes, d: Download, order: seq<nat>, j: nat)
    requires NetInv(net) && j in Request(net, f, d, order).inFlight && j !in d.inFlight
    ensures j in order && Servable(net, f, d, j)
    decreases |order|
  {
    if order != [] && |d.inFlight| < d.parallel {
      var h, peers := order[0], PeersForChunk(net, f, d, order[0]);
      PeersMembers(net, f, d, h);
      if h in d.inFlight || peers == [] {
        RequestOnlyServable(net, f, d, order[1..], j);
      } else if h != j {
        var d1 := d.(inFlight := d.inFlight[h := LeastLoaded(d, peers)]);
        RequestOnlyServable(net, f, d1, order[1..], j);
        var p :| Eligible(net, f, d1, p, j);
        assert Eligible(net, f, d, p, j);
      }
    }
  }

  /** Nothing but `i` can be asked for, or there is room for one request only. */
  ghost predicate OneAtMost(net: Net, f: bytes, d: Download, i: nat) {
    |d.inFlight| + 1 >= d.parallel || forall j :: j in d.needed && j != i && j !in d.inFlight ==> !Servable(net, f, d, j)
  }

  /** Then `i`, if asked for, goes to the first least loaded of the peers that may serve it. */
  lemma {:induction false} RequestOne(net: Net, f: bytes, d: Download, order: seq<nat>, i: nat)
    requires NetInv(net) && OneAtMost(net, f, d, i) && (forall j :: j in order ==> j in d.needed)
    requires i !in d.inFlight && i in Request(net, f, d, order).inFlight
    ensures PeersForChunk(net, f, d, i) != []
    ensures Request(net, f, d, order).inFlight[i] == LeastLoaded(d, PeersForChunk(net, f, d, i))
    decreases |order|
  {
    RequestOnlyServable(net, f, d, order, i);
    var h, peers := order[0], PeersForChunk(net, f, d, order[0]);
    assert h in order && forall j :: j in order[1..] ==> j in order;
    if h in d.inFlight || peers == [] {
      RequestOne(net, f, d, order[1..], i);
    } else {
      var d1 := d.(inFlight := d.inFlight[h := LeastLoaded(d, peers)]);
      if h == i {
        RequestGrows(net, f, d1, order[1..]);
      } else {
        OtherFills(net, f, d, i, h);
        assert false;
      }
    }
  }

  /** A request for another chunk takes the only room there was. */
  lemma OtherFills(net: Net, f: bytes, d: Download, i: nat, h: nat)
    requires NetInv(net) && OneAtMost(net, f, d, i) && PeersForChunk(net, f, d, h) != []
    requires h in d.needed && h != i && h !in d.inFlight
    ensures |d.inFlight| + 1 >= d.parallel
  {
    PeersMembers(net, f, d, h);
  }

  lemma ScheduledOne(net: Net, f: bytes, d: Download, d': Download, i: nat)
    requires NetInv(net) && OneAtMost(net, f, d, i) && Scheduled(net, f, d, d')
    requires i !in d.inFlight && i in d'.inFlight
    ensures PeersForChunk(net, f, d, i) != [] && d'.inFlight[i] == LeastLoaded(d, PeersForChunk(net, f, d, i))
  {
    var order :| RarestOrder(net, f, Candidates(net, f, d), order) && d' == Request(net, f, d, order);
    RequestOne(net, f, d, order, i);
  }

  /** With room, the only chunk that can be asked for is. */
  lemma ScheduledAsks(net: Net, f: bytes, d: Download, d': Download, i: nat)
    requires NetInv(net) && TableInv(net, f, d) && Scheduled(net, f, d, d')
    requires |d.inFlight| + 1 < d.parallel && OneAtMost(net, f, d, i)
    requires i in d.needed && i !in d.inFlight && Servable(net, f, d, i)
    ensures i in d'.inFlight
  {
    ScheduledKeeps(net, f, d, d');
    if i !in d'.inFlight {
      var order :| RarestOrder(net, f, Candidates(net, f, d), order) && d' == Request(net, f, d, order);
      forall j | j in d'.inFlight
        ensures j in d.inFlight
      {
        if j !in d.inFlight {
          RequestOnlyServable(net, f, d, order, j);
        }
      }
      assert d'.inFlight.Keys <= d.inFlight.Keys;
      SubsetSize(d'.inFlight.Keys, d.inFlight.Keys);
      var p :| Eligible(net, f, d, p, i);
      assert Eligible(net, f, d', p, i);
    }
  }

  /** With no chunk to ask for, scheduling changes nothing. */
  lemma ScheduledNone(net: Net, f: bytes, d: Download)
    requires Candidates(net, f, d) == {}
    ensures Scheduled(net, f, d, d)
  {
    assert RarestOrder(net, f, {}, []) && Request(net, f, d, []) == d;
  }

  /** With a single one and room for it, that one is asked for. */
  lemma ScheduledSingle(net: Net, f: bytes, d: Download, i: nat)
    requires Candidates(net, f, d) == {i} && i !in d.inFlight && |d.inFlight| < d.parallel
    requires PeersForChunk(net, f, d, i) != []
    ensures Scheduled(net, f, d, d.(inFlight := d.inFlight[i := LeastLoaded(d, PeersForChunk(net, f, d, i))]))
  {
    var d1 := d.(inFlight := d.inFlight[i := LeastLoaded(d, PeersForChunk(net, f, d, i))]);
    assert RarestOrder(net, f, {i}, [i]);
    assert Request(net, f, d, [i]) == Request(net, f, d1, [i][1..]) == d1;
  }

  // ---- Balance ----

  ghost predicate Balanced(d: Download, peers: set<Peer>) {
    forall p, q :: p in peers && q in peers ==> Load(d, p) <= Load(d, q) + 1
  }

  lemma LoadAfterRequest(d: Download, i: nat, p: Peer, q: Peer)
    requires i !in d.inFlight
    ensures Load(d.(inFlight := d.inFlight[i := p]), q) == Load(d, q) + if p == q then 1 else 0
  {
    var d1 := d.(inFlight := d.inFlight[i := p]);
    if p == q {
      assert FlightsOf(d1, q) == FlightsOf(d, q) + {i};
    } else {
      assert FlightsOf(d1, q) == FlightsOf(d, q);
    }
  }

  lemma {:induction false} RequestBalanced(net: Net, f: bytes, d: Download, order: seq<nat>)
    requires NetInv(net) && Balanced(d, net.sessions)
    requires forall i, p :: i in order && p in net.sessions ==> Eligible(net, f, d, p, i)
    ensures Balanced(Request(net, f, d, order), net.sessions)
    decreases |order|
  {
    if order != [] && |d.inFlight| < d.parallel {
      var h, peers := order[0], PeersForChunk(net, f, d, order[0]);
      assert h in order && forall j :: j in order[1..] ==> j in order;
      PeersMembers(net, f, d, h);
      if h in d.inFlight || peers == [] {
        RequestBalanced(net, f, d, order[1..]);
      } else {
        LeastLoadedIsLeast(d, peers);
        var p := LeastLoaded(d, peers);
        var d1 := d.(inFlight := d.inFlight[h := p]);
        forall q | q in net.sessions
          ensures Load(d1, q) == Load(d, q) + (if p == q then 1 else 0) && Load(d, p) <= Load(d, q)
        {
          LoadAfterRequest(d, h, p, q);
        }
        forall j, q | j in order[1..] && q in net.sessions
          ensures Eligible(net, f, d1, q, j)
        {
          assert Eligible(net, f, d, q, j);
        }
        RequestBalanced(net, f, d1, order[1..]);
      }
    }
  }

  /**
   * Balance. When every connected peer may serve every candidate and no two of them differ by more than
   * one request, that is still so after scheduling.
   */
  lemma ScheduledBalanced(net: Net, f: bytes, d: Download, d': Download)
    requires NetInv(net) && Scheduled(net, f, d, d') && Balanced(d, net.sessions)
    requires forall i, p :: i in Candidates(net, f, d) && p in net.sessions ==> Eligible(net, f, d, p, i)
    ensures Balanced(d', net.sessions)
  {
    var order :| RarestOrder(net, f, Candidates(net, f, d), order) && d' == Request(net, f, d, order);
    RequestBalanced(net, f, d, order);
  }

  // ---- The convergence measure ----

  /** Connected peers and wanted chunks not yet spoiled between them. */
  function Pairs(net: Net, d: Download): set<(Peer, nat)> {
    set p, i | p in net.sessions && i in d.needed && !Bad(d, p, i) :: (p, i)
  }

  function Phi(net: Net, d: Download): nat {
    |d.needed| + |Pairs(net, d)|
  }

  lemma SubsetSize<T>(a: set<T>, b: set<T>)
    requires a <= b
    ensures |a| <= |b|
    ensures a != b ==> |a| < |b|
  {
    assert b == a + (b - a);
    if a != b {
      var x :| x in b - a;
      assert b - a == {x} + (b - a - {x});
    }
  }

  /** Fewer connected peers, fewer wanted chunks and more spoiled pairs never raise the measure. */
  lemma PhiMonotone(net: Net, d: Download, net': Net, d': Download)
    requires net'.sessions <= net.sessions && d'.needed <= d.needed
    requires forall p: Peer, i: nat :: Bad(d, p, i) ==> Bad(d', p, i)
    ensures Phi(net', d') <= Phi(net, d)
    ensures d'.needed != d.needed ==> Phi(net', d') < Phi(net, d)
    ensures Pairs(net', d') != Pairs(net, d) ==> Phi(net', d') < Phi(net, d)
  {
    SubsetSize(d'.needed, d.needed);
    forall x | x in Pairs(net', d')
      ensures x in Pairs(net, d)
    {
      assert !Bad(d', x.0, x.1);
    }
    SubsetSize(Pairs(net', d'), Pairs(net, d));
  }

  lemma {:induction false} ProductSize(ps: set<Peer>, wanted: set<nat>, pairs: set<(Peer, nat)>)
    requires forall x :: x in pairs ==> x.0 in ps && x.1 in wanted
    ensures |pairs| <= |ps| * |wanted|
    decreases |ps|
  {
    if ps == {} {
      assert pairs == {};
    } else {
      var p :| p in ps;
      var mine := set x | x in pairs && x.0 == p;
      var rest := pairs - mine;
      ProductSize(ps - {p}, wanted, rest);
      RowSize(p, wanted, mine);
      assert pairs == mine + rest;
      assert |ps| * |wanted| == |wanted| + |ps - {p}| * |wanted|;
    }
  }

  lemma {:induction false} RowSize(p: Peer, wanted: set<nat>, row: set<(Peer, nat)>)
    requires forall x :: x in row ==> x.0 == p && x.1 in wanted
    ensures |row| <= |wanted|
    decreases |wanted|
  {
    if wanted == {} {
      assert row == {};
    } else {
      var i :| i in wanted;
      RowSize(p, wanted - {i}, row - {(p, i)});
      SubsetSize(row, (row - {(p, i)}) + {(p, i)});
    }
  }

  lemma {:induction false} BelowSize(s: set<nat>, n: nat)
    requires forall i :: i in s ==> i < n
    ensures |s| <= n
    decreases n
  {
    if n == 0 {
      assert s == {};
    } else {
      BelowSize(s - {n - 1}, n - 1);
      SubsetSize(s, (s - {n - 1}) + {n - 1});
    }
  }

  /** The measure of a download starts at no more than `nb * (1 + |sessions|)`. */
  lemma PhiBound(net: Net, d: Download, nb: nat)
    requires forall i :: i in d.needed ==> i < nb
    ensures Phi(net, d) <= nb * (1 + |net.sessions|)
  {
    BelowSize(d.needed, nb);
    ProductSize(net.sessions, d.needed, Pairs(net, d));
    var s := |net.sessions|;
    assert s * |d.needed| <= s * nb;
    assert nb * (1 + s) == nb + s * nb;
  }
}
