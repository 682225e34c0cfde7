/**
 * All the connections of one packet server: they share the replay guard and the limiter per address
 * (src/network/tcpServer.js). Whatever the order in which their packets are read, and whatever each
 * socket's own counter says, the shared gates hold server-wide.
 */
module ServerGates {
  import opened Bytes
  import opened Packet
  import opened TcpServer
  import FixedWindow
  import IpRateLimiter
  import Replay

  /** A packet read on some socket from address `ip`, whose own counter stands at `own`; or the cleanup timer. */
  datatype Event = Arrival(ip: string, own: FixedWindow.Counter, packet: bytes, now: int) | Cleanup(now: int)

  /** The settings of a socket from that address. */
  function On(s: Settings, ip: string): Settings {
    s.(ip := ip)
  }

  function Serve(s: Settings, sh: Shared, e: Event): (Shared, bool) {
    match e
    case Cleanup(now) => (sh.(counters := IpRateLimiter.CleanupStep(sh.counters, now, s.ipWindow)), false)
    case Arrival(ip, own, packet, now) =>
      var (g, o) := Inspect(On(s, ip), Gates(own, sh.counters, sh.seen), packet, now);
      (Shared(g.counters, g.seen), o.Pass?)
  }

  const NEW: Shared := Shared(map[], [])

  /** `states[i + 1]` results from event `i`, which says `passing[i]`. */
  ghost predicate Follows(s: Settings, events: seq<Event>, states: seq<Shared>, passing: seq<bool>, i: nat)
    requires i < |events| && |states| == |events| + 1 && |passing| == |events|
  {
    Serve(s, states[i], events[i]) == (states[i + 1], passing[i])
  }

  /** A run of a new server: what is shared between the events, and which of them are packets that pass. */
  ghost predicate Run(s: Settings, events: seq<Event>, states: seq<Shared>, passing: seq<bool>) {
    && |states| == |events| + 1 && |passing| == |events| && states[0] == NEW && Clocked(events)
    && forall i :: 0 <= i < |events| ==> Follows(s, events, states, passing, i)
  }

  ghost predicate Clocked(events: seq<Event>) {
    forall i, j :: 0 <= i <= j < |events| ==> events[i].now <= events[j].now
  }

  // ---- A guard that some events ask ----

  type Ask = Option<Replay.Request>

  /** The requests among the first `n` entries. */
  function Asked(asks: seq<Ask>, n: nat): seq<Replay.Request>
    requires n <= |asks|
  {
    if n == 0 then []
    else Asked(asks, n - 1) + if asks[n - 1].Some? then [asks[n - 1].value] else []
  }

  /** Entry `i` asks and the guard, having seen the requests before it, accepts. */
  predicate Granted(cfg: Replay.Config, asks: seq<Ask>, i: nat)
    requires i < |asks|
  {
    asks[i].Some? && Replay.Check(cfg, Replay.Run(cfg, [], Asked(asks, i)), asks[i].value).1 == Replay.Accept
  }

  /** How many of the entries `[lo, hi)` are granted. */
  function Grants(cfg: Replay.Config, asks: seq<Ask>, lo: nat, hi: nat): nat
    requires lo <= hi <= |asks|
    decreases hi
  {
    if lo == hi then 0 else Grants(cfg, asks, lo, hi - 1) + if Granted(cfg, asks, hi - 1) then 1 else 0
  }

  lemma {:induction false} AskedPrefix(asks: seq<Ask>, i: nat, n: nat)
    requires i <= n <= |asks|
    ensures |Asked(asks, i)| <= |Asked(asks, n)| && Asked(asks, n)[..|Asked(asks, i)|] == Asked(asks, i)
    decreases n
  {
    if i < n {
      AskedPrefix(asks, i, n - 1);
      TakePrefix(Asked(asks, n - 1), Asked(asks, n), |Asked(asks, i)|);
    }
  }

  lemma TakePrefix<T>(a: seq<T>, b: seq<T>, m: nat)
    requires m <= |a| <= |b| && a == b[..|a|]
    ensures b[..m] == a[..m]
  {}

  /** An entry that asks has its place among all requests, and is granted by the verdict there. */
  lemma GrantedIs(cfg: Replay.Config, asks: seq<Ask>, i: nat)
    requires i < |asks| && asks[i].Some?
    ensures var reqs, r := Asked(asks, |asks|), |Asked(asks, i)|;
            && r < |reqs| && reqs[r] == asks[i].value && |Asked(asks, i + 1)| == r + 1
            && Granted(cfg, asks, i) == (Replay.VerdictAt(cfg, reqs, r) == Replay.Accept)
  {
    AskedPrefix(asks, i, |asks|);
    AskedPrefix(asks, i + 1, |asks|);
    assert Asked(asks, i + 1)[|Asked(asks, i)|] == asks[i].value;
  }

  lemma OneAccepted(cfg: Replay.Config, asks: seq<Ask>, a: nat, i: nat)
    requires i < |asks| && a <= |Asked(asks, i)| <= |Asked(asks, |asks|)|
    ensures |Asked(asks, i)| <= |Asked(asks, i + 1)| <= |Asked(asks, |asks|)|
    ensures var reqs := Asked(asks, |asks|);
            Replay.Accepted(cfg, reqs, a, |Asked(asks, i + 1)|)
            == Replay.Accepted(cfg, reqs, a, |Asked(asks, i)|) + if Granted(cfg, asks, i) then 1 else 0
  {
    AskedPrefix(asks, i + 1, |asks|);
    if asks[i].Some? {
      GrantedIs(cfg, asks, i);
    }
  }

  lemma {:induction false} GrantsAreAccepted(cfg: Replay.Config, asks: seq<Ask>, lo: nat, hi: nat)
    requires lo <= hi <= |asks|
    ensures |Asked(asks, lo)| <= |Asked(asks, hi)| <= |Asked(asks, |asks|)|
    ensures Grants(cfg, asks, lo, hi)
         == Replay.Accepted(cfg, Asked(asks, |asks|), |Asked(asks, lo)|, |Asked(asks, hi)|)
    decreases hi
  {
    if lo < hi {
      GrantsAreAccepted(cfg, asks, lo, hi - 1);
      OneAccepted(cfg, asks, |Asked(asks, lo)|, hi - 1);
    } else {
      AskedPrefix(asks, hi, |asks|);
    }
  }

  /** Requests come with the times of their events. */
  ghost predicate InOrder(asks: seq<Ask>) {
    forall i, j :: 0 <= i <= j < |asks| && asks[i].Some? && asks[j].Some? ==> asks[i].value.now <= asks[j].value.now
  }

  lemma {:induction false} AskedMember(asks: seq<Ask>, n: nat, x: Replay.Request) returns (i: nat)
    requires n <= |asks| && x in Asked(asks, n)
    ensures i < n && asks[i] == Some(x)
  {
    if x in Asked(asks, n - 1) {
      i := AskedMember(asks, n - 1, x);
    } else {
      i := n - 1;
    }
  }

  lemma {:induction false} AskedClocked(asks: seq<Ask>, n: nat)
    requires InOrder(asks) && n <= |asks|
    ensures Replay.Clocked(Asked(asks, n))
  {
    if n > 0 {
      AskedClocked(asks, n - 1);
      if asks[n - 1].Some? {
        forall x | x in Asked(asks, n - 1)
          ensures x.now <= asks[n - 1].value.now
        {
          var i := AskedMember(asks, n - 1, x);
        }
        ClockedSnoc(Asked(asks, n - 1), asks[n - 1].value);
      }
    }
  }

  lemma ClockedSnoc(reqs: seq<Replay.Request>, r: Replay.Request)
    requires Replay.Clocked(reqs) && forall x :: x in reqs ==> x.now <= r.now
    ensures Replay.Clocked(reqs + [r])
  {}

  /** The grants after entry `i` and before `j` are the acceptances between their places. */
  lemma GrantsBetween(cfg: Replay.Config, asks: seq<Ask>, i: nat, j: nat)
    requires i < j < |asks| && asks[i].Some?
    ensures |Asked(asks, i)| < |Asked(asks, j)| <= |Asked(asks, |asks|)|
    ensures Grants(cfg, asks, i + 1, j)
         == Replay.Accepted(cfg, Asked(asks, |asks|), |Asked(asks, i)| + 1, |Asked(asks, j)|)
  {
    GrantsAreAccepted(cfg, asks, i + 1, j);
    assert |Asked(asks, i + 1)| == |Asked(asks, i)| + 1;
  }

  /** The place of a granted entry among all requests. */
  lemma PlaceOf(cfg: Replay.Config, asks: seq<Ask>, i: nat)
    requires i < |asks| && Granted(cfg, asks, i)
    ensures var reqs, r := Asked(asks, |asks|), |Asked(asks, i)|;
            r < |reqs| && reqs[r] == asks[i].value && Replay.VerdictAt(cfg, reqs, r) == Replay.Accept
  {
    GrantedIs(cfg, asks, i);
  }

  /** One request, accepted at two times. */
  lemma {:induction false} AcceptedTwice(cfg: Replay.Config, reqs: seq<Replay.Request>, a: nat, b: nat)
    requires Replay.Clocked(reqs) && a < b < |reqs| && reqs[b] == reqs[a].(now := reqs[b].now)
    requires Replay.VerdictAt(cfg, reqs, a) == Replay.Accept && Replay.VerdictAt(cfg, reqs, b) == Replay.Accept
    ensures Replay.Accepted(cfg, reqs, a + 1, b) >= Replay.Cap(cfg) >= cfg.maxEntries
  {
    Replay.NoDoubleAcceptance(cfg, reqs, a, b);
  }

  lemma {:induction false} NoGrantTwice(cfg: Replay.Config, asks: seq<Ask>, i: nat, j: nat)
    requires InOrder(asks) && i < j < |asks| && asks[i].Some? && asks[j].Some?
    requires asks[j].value == asks[i].value.(now := asks[j].value.now)
    requires Granted(cfg, asks, i) && Granted(cfg, asks, j)
    ensures Grants(cfg, asks, i + 1, j) >= Replay.Cap(cfg) >= cfg.maxEntries
  {
    PlaceOf(cfg, asks, i);
    PlaceOf(cfg, asks, j);
    AskedClocked(asks, |asks|);
    SameAskTwice(cfg, asks, i, j);
  }

  lemma {:induction false} SameAskTwice(cfg: Replay.Config, asks: seq<Ask>, i: nat, j: nat)
    requires i < j < |asks| && asks[i].Some? && asks[j].Some? && asks[j].value == asks[i].value.(now := asks[j].value.now)
    requires var reqs, a, b := Asked(asks, |asks|), |Asked(asks, i)|, |Asked(asks, j)|;
             && Replay.Clocked(reqs) && a < |reqs| && b < |reqs| && reqs[a] == asks[i].value && reqs[b] == asks[j].value
             && Replay.VerdictAt(cfg, reqs, a) == Replay.Accept && Replay.VerdictAt(cfg, reqs, b) == Replay.Accept
    ensures Grants(cfg, asks, i + 1, j) >= Replay.Cap(cfg) >= cfg.maxEntries
  {
    GrantsBetween(cfg, asks, i, j);
    AcceptedTwice(cfg, Asked(asks, |asks|), |Asked(asks, i)|, |Asked(asks, j)|);
  }

  // ---- The replay guard of the server ----

  /** The request of a packet that verifies. */
  function RequestOf(s: Settings, packet: bytes, now: int): Ask {
    if !VerifyPacket(s.suite, packet) then None
    else match ParsePacket(packet)
      case None => None
      case Some(p) =>
        if !VerifySignature(s.suite, p) then None
        else match UnwrapPayload(p.payload)
          case None => None
          case Some(e) => Some(Replay.Request(p.nodeId, Replay.Finite(e.timestamp), e.nonce, now))
  }

  /** What an event asks of the guard, if it gets so far. */
  function Asks(s: Settings, sh: Shared, e: Event): Ask {
    if e.Cleanup? then None
    else if FixedWindow.Bump(Some(e.own), e.now, 1000).count > MAX_PACKETS_PER_SECOND then None
    else if !IpRateLimiter.AllowStep(sh.counters, e.ip, e.now, s.ipLimit, s.ipWindow).1 then None
    else RequestOf(s, e.packet, e.now)
  }

  /** The guard sees exactly the request asked, and the packet passes exactly when it accepts. */
  lemma ServeAsks(s: Settings, sh: Shared, e: Event)
    ensures var a, (sh', passed) := Asks(s, sh, e), Serve(s, sh, e);
            && (a.None? ==> sh'.seen == sh.seen && !passed)
            && (a.Some? ==> && e.Arrival? && a == RequestOf(s, e.packet, e.now) && a.value.now == e.now
                            && sh'.seen == Replay.Check(s.replay, sh.seen, a.value).0
                            && passed == (Replay.Check(s.replay, sh.seen, a.value).1 == Replay.Accept))
  {}

  /** What each event asks. */
  function AskList(s: Settings, events: seq<Event>, states: seq<Shared>): (r: seq<Ask>)
    requires |states| == |events| + 1
    ensures |r| == |events|
    ensures forall i :: 0 <= i < |events| ==> r[i] == Asks(s, states[i], events[i])
  {
    seq(|events|, i requires 0 <= i < |events| => Asks(s, states[i], events[i]))
  }

  /** The cache after each event is the one the guard builds from the requests asked. */
  lemma {:induction false} SeenIs(s: Settings, events: seq<Event>, states: seq<Shared>, passing: seq<bool>, n: nat)
    requires Run(s, events, states, passing) && n <= |events|
    ensures states[n].seen == Replay.Run(s.replay, [], Asked(AskList(s, events, states), n))
  {
    if n > 0 {
      SeenIs(s, events, states, passing, n - 1);
      assert Follows(s, events, states, passing, n - 1);
      ServeAsks(s, states[n - 1], events[n - 1]);
      RunOne(s.replay, Asked(AskList(s, events, states), n - 1), AskList(s, events, states)[n - 1]);
    }
  }

  lemma RunOne(cfg: Replay.Config, reqs: seq<Replay.Request>, a: Ask)
    ensures Replay.Run(cfg, [], reqs + if a.Some? then [a.value] else [])
         == if a.Some? then Replay.Check(cfg, Replay.Run(cfg, [], reqs), a.value).0 else Replay.Run(cfg, [], reqs)
  {
    if a.Some? {
      assert (reqs + [a.value])[..|reqs|] == reqs;
    } else {
      assert reqs + [] == reqs;
    }
  }

  /** A packet passes exactly when it is granted. */
  lemma PassIsGrant(s: Settings, events: seq<Event>, states: seq<Shared>, passing: seq<bool>, i: nat)
    requires Run(s, events, states, passing) && i < |events|
    ensures passing[i] == Granted(s.replay, AskList(s, events, states), i)
    ensures passing[i] ==>
              events[i].Arrival? && AskList(s, events, states)[i] == RequestOf(s, events[i].packet, events[i].now)
  {
    assert Follows(s, events, states, passing, i);
    ServeAsks(s, states[i], events[i]);
    SeenIs(s, events, states, passing, i);
  }

  /** How many of the entries `[lo, hi)` say yes. */
  function Passed(passing: seq<bool>, lo: nat, hi: nat): nat
    requires lo <= hi <= |passing|
    decreases hi
  {
    if lo == hi then 0 else Passed(passing, lo, hi - 1) + if passing[hi - 1] then 1 else 0
  }

  lemma {:induction false} PassedIsGrants(cfg: Replay.Config, asks: seq<Ask>, passing: seq<bool>, lo: nat, hi: nat)
    requires lo <= hi <= |passing| == |asks|
    requires forall i :: 0 <= i < |asks| ==> passing[i] == Granted(cfg, asks, i)
    ensures Passed(passing, lo, hi) == Grants(cfg, asks, lo, hi)
    decreases hi
  {
    if lo < hi {
      PassedIsGrants(cfg, asks, passing, lo, hi - 1);
    }
  }

  /** What a packet asks depends on its bytes only, but for the time. */
  lemma SameRequest(s: Settings, packet: bytes, t: int, t': int)
    requires RequestOf(s, packet, t).Some?
    ensures RequestOf(s, packet, t') == Some(RequestOf(s, packet, t).value.(now := t'))
    ensures RequestOf(s, packet, t').value.now == t'
  {}

  lemma AskListInOrder(s: Settings, events: seq<Event>, states: seq<Shared>)
    requires Clocked(events) && |states| == |events| + 1
    ensures InOrder(AskList(s, events, states))
  {
    forall i | 0 <= i < |events| && AskList(s, events, states)[i].Some?
      ensures AskList(s, events, states)[i].value.now == events[i].now
    {
      ServeAsks(s, states[i], events[i]);
    }
  }

  lemma PassingIsGranted(s: Settings, events: seq<Event>, states: seq<Shared>, passing: seq<bool>)
    requires Run(s, events, states, passing)
    ensures forall n :: 0 <= n < |events| ==> passing[n] == Granted(s.replay, AskList(s, events, states), n)
  {
    forall n | 0 <= n < |events|
      ensures passing[n] == Granted(s.replay, AskList(s, events, states), n)
    {
      PassIsGrant(s, events, states, passing, n);
    }
  }

  /** The same packet asks the same, but for the time. */
  lemma SameAsks(s: Settings, events: seq<Event>, states: seq<Shared>, passing: seq<bool>, i: nat, j: nat)
    requires Run(s, events, states, passing) && i < |events| && j < |events| && passing[i] && passing[j]
    requires events[i].Arrival? && events[j].Arrival? && events[i].packet == events[j].packet
    ensures var asks := AskList(s, events, states);
            asks[i].Some? && asks[j].Some? && asks[j].value == asks[i].value.(now := asks[j].value.now)
  {
    PassIsGrant(s, events, states, passing, i);
    PassIsGrant(s, events, states, passing, j);
    SameRequest(s, events[i].packet, events[i].now, events[j].now);
  }

  lemma {:induction false} NoPassTwice(cfg: Replay.Config, asks: seq<Ask>, passing: seq<bool>, i: nat, j: nat)
    requires InOrder(asks) && i < j < |asks| == |passing| && asks[i].Some? && asks[j].Some?
    requires asks[j].value == asks[i].value.(now := asks[j].value.now)
    requires forall n :: 0 <= n < |asks| ==> passing[n] == Granted(cfg, asks, n)
    requires passing[i] && passing[j]
    ensures Passed(passing, i + 1, j) >= Replay.Cap(cfg) >= cfg.maxEntries
  {
    NoGrantTwice(cfg, asks, i, j);
    PassedIsGrants(cfg, asks, passing, i + 1, j);
  }

  /**
   * Server-wide replay defence. If the same packet passes twice, on whatever sockets and addresses, at
   * least `maxEntries` packets passed on the server strictly in between.
   */
  lemma {:induction false} NoPacketTwice(s: Settings, events: seq<Event>, states: seq<Shared>, passing: seq<bool>, i: nat, j: nat)
    requires Run(s, events, states, passing) && i < j < |events|
    requires events[i].Arrival? && events[j].Arrival? && events[i].packet == events[j].packet
    requires passing[i] && passing[j]
    ensures Passed(passing, i + 1, j) >= Replay.Cap(s.replay) >= s.replay.maxEntries
  {
    SameAsks(s, events, states, passing, i, j);
    PassingIsGranted(s, events, states, passing);
    AskListInOrder(s, events, states);
    NoPassTwice(s.replay, AskList(s, events, states), passing, i, j);
  }

  // ---- The limiter of the server ----

  /** The call an event makes to the limiter: none when the socket's own counter stops the packet. */
  function CallOf(e: Event): seq<IpRateLimiter.Event> {
    match e
    case Cleanup(now) => [IpRateLimiter.Cleanup(now)]
    case Arrival(ip, own, _, now) =>
      if FixedWindow.Bump(Some(own), now, 1000).count > MAX_PACKETS_PER_SECOND then [] else [IpRateLimiter.Allow(ip, now)]
  }

  /** The calls made by the events `[lo, hi)`. */
  function CallsOf(events: seq<Event>, lo: nat, hi: nat): seq<IpRateLimiter.Event>
    requires lo <= hi <= |events|
    decreases hi - lo
  {
    if lo == hi then [] else CallOf(events[lo]) + CallsOf(events, lo + 1, hi)
  }

  /** How many of the events `[lo, hi)` are packets from `ip` that pass. */
  function PassedFrom(passing: seq<bool>, events: seq<Event>, ip: string, lo: nat, hi: nat): nat
    requires lo <= hi <= |passing| == |events|
    decreases hi - lo
  {
    if lo == hi then 0
    else (if passing[lo] && events[lo].Arrival? && events[lo].ip == ip then 1 else 0)
         + PassedFrom(passing, events, ip, lo + 1, hi)
  }

  /** What the call of an event does to the table, and whether the limiter lets the packet through. */
  function Called(m: IpRateLimiter.Counters, e: Event, limit: nat, window: nat): (IpRateLimiter.Counters, bool) {
    if CallOf(e) == [] then (m, false)
    else match e
      case Cleanup(now) => (IpRateLimiter.CleanupStep(m, now, window), false)
      case Arrival(ip, _, _, now) => IpRateLimiter.AllowStep(m, ip, now, limit, window)
  }

  /** The tables of a run, and the packets that pass among those let through. */
  ghost predicate Limited(events: seq<Event>, tables: seq<IpRateLimiter.Counters>, passing: seq<bool>, limit: nat, window: nat) {
    && |tables| == |events| + 1 && |passing| == |events|
    && forall i :: 0 <= i < |events| ==> LimitedAt(events, tables, passing, limit, window, i)
  }

  ghost predicate LimitedAt(events: seq<Event>, tables: seq<IpRateLimiter.Counters>, passing: seq<bool>,
                            limit: nat, window: nat, i: nat)
    requires i < |events| && |tables| == |events| + 1 && |passing| == |events|
  {
    var (m, ok) := Called(tables[i], events[i], limit, window);
    tables[i + 1] == m && (passing[i] ==> ok)
  }

  lemma CountHead(r: seq<bool>)
    ensures FixedWindow.Count([true] + r) == 1 + FixedWindow.Count(r)
    ensures FixedWindow.Count([false] + r) == FixedWindow.Count(r) && [] + r == r
  {
    assert ([true] + r)[1..] == r && ([false] + r)[1..] == r;
  }

  /** One call more, ahead of the others. */
  lemma CalledFirst(m: IpRateLimiter.Counters, e: Event, ip: string, rest: seq<IpRateLimiter.Event>, limit: nat, window: nat)
    ensures var (m', ok) := Called(m, e, limit, window);
            FixedWindow.Count(IpRateLimiter.Answers(m', ip, rest, limit, window))
              + (if ok && e.Arrival? && e.ip == ip then 1 else 0)
            <= FixedWindow.Count(IpRateLimiter.Answers(m, ip, CallOf(e) + rest, limit, window))
  {
    var (m', _) := Called(m, e, limit, window);
    CountHead(IpRateLimiter.Answers(m', ip, rest, limit, window));
    if CallOf(e) == [] {
      assert [] + rest == rest;
    } else {
      CutHead(CallOf(e), rest);
    }
  }

  /** How many of these calls the limiter answers with yes. */
  function Allowed(m: IpRateLimiter.Counters, ip: string, calls: seq<IpRateLimiter.Event>, limit: nat, window: nat): nat {
    FixedWindow.Count(IpRateLimiter.Answers(m, ip, calls, limit, window))
  }

  /** The packet of one event, if it passes, is one of the calls allowed. */
  lemma AllowedFirst(events: seq<Event>, tables: seq<IpRateLimiter.Counters>, passing: seq<bool>,
                     limit: nat, window: nat, ip: string, lo: nat, hi: nat)
    requires Limited(events, tables, passing, limit, window) && lo < hi <= |events|
    ensures Allowed(tables[lo + 1], ip, CallsOf(events, lo + 1, hi), limit, window)
              + (if passing[lo] && events[lo].Arrival? && events[lo].ip == ip then 1 else 0)
            <= Allowed(tables[lo], ip, CallsOf(events, lo, hi), limit, window)
  {
    assert LimitedAt(events, tables, passing, limit, window, lo);
    CalledFirst(tables[lo], events[lo], ip, CallsOf(events, lo + 1, hi), limit, window);
  }

  /** The packets of an address that pass at the events `[lo, hi)` are among the calls it was allowed. */
  lemma {:induction false} PassedAreAllowed(events: seq<Event>, tables: seq<IpRateLimiter.Counters>, passing: seq<bool>,
                                            limit: nat, window: nat, ip: string, lo: nat, hi: nat)
    requires Limited(events, tables, passing, limit, window) && lo <= hi <= |events|
    ensures PassedFrom(passing, events, ip, lo, hi) <= Allowed(tables[lo], ip, CallsOf(events, lo, hi), limit, window)
    decreases hi - lo
  {
    if lo < hi {
      PassedAreAllowed(events, tables, passing, limit, window, ip, lo + 1, hi);
      AllowedFirst(events, tables, passing, limit, window, ip, lo, hi);
    }
  }

  /** The tables of a run. */
  function Tables(states: seq<Shared>): (r: seq<IpRateLimiter.Counters>)
    ensures |r| == |states|
    ensures forall n :: 0 <= n < |states| ==> r[n] == states[n].counters
  {
    seq(|states|, n requires 0 <= n < |states| => states[n].counters)
  }

  /** The gates of the server treat the table as the limiter does. */
  lemma ServeCalls(s: Settings, sh: Shared, e: Event)
    ensures var (sh', passed), (m, ok) := Serve(s, sh, e), Called(sh.counters, e, s.ipLimit, s.ipWindow);
            sh'.counters == m && (passed ==> ok)
  {}

  lemma RunLimited(s: Settings, events: seq<Event>, states: seq<Shared>, passing: seq<bool>)
    requires Run(s, events, states, passing)
    ensures Limited(events, Tables(states), passing, s.ipLimit, s.ipWindow)
  {
    forall i | 0 <= i < |events|
      ensures LimitedAt(events, Tables(states), passing, s.ipLimit, s.ipWindow, i)
    {
      assert Follows(s, events, states, passing, i);
      ServeCalls(s, states[i], events[i]);
    }
  }

  /** The calls come at the times of their events. */
  lemma {:induction false} CallsClocked(events: seq<Event>, ip: string, lo: nat, hi: nat)
    requires Clocked(events) && lo < hi <= |events|
    ensures IpRateLimiter.Clocked(CallsOf(events, lo, hi), events[lo].now)
    ensures forall t :: t in IpRateLimiter.CallTimes(ip, CallsOf(events, lo, hi)) ==> t <= events[hi - 1].now
    decreases hi - lo
  {
    if lo + 1 < hi {
      CallsClocked(events, ip, lo + 1, hi);
      IpRateLimiter.ClockedEarlier(CallsOf(events, lo + 1, hi), events[lo + 1].now, events[lo].now);
    }
    CallFirst(events[lo], CallsOf(events, lo + 1, hi), ip, events[hi - 1].now);
  }

  lemma CallFirst(e: Event, rest: seq<IpRateLimiter.Event>, ip: string, until: int)
    requires IpRateLimiter.Clocked(rest, e.now) && e.now <= until
    requires forall t :: t in IpRateLimiter.CallTimes(ip, rest) ==> t <= until
    ensures IpRateLimiter.Clocked(CallOf(e) + rest, e.now)
    ensures forall t :: t in IpRateLimiter.CallTimes(ip, CallOf(e) + rest) ==> t <= until
  {
    if CallOf(e) == [] {
      assert [] + rest == rest;
    } else {
      CutHead(CallOf(e), rest);
    }
  }

  /** A counter in a table has counted something. */
  lemma {:induction false} TablesUsed(events: seq<Event>, tables: seq<IpRateLimiter.Counters>, passing: seq<bool>,
                                      limit: nat, window: nat, n: nat)
    requires Limited(events, tables, passing, limit, window) && tables[0] == map[] && n <= |events|
    ensures forall ip :: ip in tables[n] ==> tables[n][ip].count >= 1
  {
    if n > 0 {
      TablesUsed(events, tables, passing, limit, window, n - 1);
      assert LimitedAt(events, tables, passing, limit, window, n - 1);
    }
  }

  /** The quota of one window length from any table in use. */
  lemma TableQuota(m: IpRateLimiter.Counters, ip: string, calls: seq<IpRateLimiter.Event>, limit: nat, window: nat,
                   since: int, until: int)
    requires IpRateLimiter.Clocked(calls, since) && until - since <= window
    requires forall t :: t in IpRateLimiter.CallTimes(ip, calls) ==> t <= until
    requires ip in m ==> m[ip].count >= 1
    ensures Allowed(m, ip, calls, limit, window) <= if limit == 0 then 0 else 2 * limit - 1
  {
    var times := IpRateLimiter.CallTimes(ip, calls);
    IpRateLimiter.OwnCounter(m, ip, calls, limit, window, since);
    IpRateLimiter.CallTimesSorted(ip, calls, since);
    assert times != [] ==> since <= times[0] && times[|times| - 1] in times;
    FixedWindow.TwoWindows(IpRateLimiter.Get(m, ip), times, limit, window);
  }

  /**
   * Server-wide quota. Over any closed interval of one window length, the packets from one address that
   * pass, on however many sockets, number at most `2 * limit - 1` (none for a limit of zero).
   */
  lemma {:induction false} IpQuota(s: Settings, events: seq<Event>, states: seq<Shared>, passing: seq<bool>,
                                   ip: string, lo: nat, hi: nat)
    requires Run(s, events, states, passing) && lo < hi <= |events|
    requires events[hi - 1].now - events[lo].now <= s.ipWindow
    ensures PassedFrom(passing, events, ip, lo, hi) <= if s.ipLimit == 0 then 0 else 2 * s.ipLimit - 1
  {
    var tables, calls := Tables(states), CallsOf(events, lo, hi);
    RunLimited(s, events, states, passing);
    PassedAreAllowed(events, tables, passing, s.ipLimit, s.ipWindow, ip, lo, hi);
    CallsClocked(events, ip, lo, hi);
    TablesUsed(events, tables, passing, s.ipLimit, s.ipWindow, lo);
    TableQuota(tables[lo], ip, calls, s.ipLimit, s.ipWindow, events[lo].now, events[hi - 1].now);
  }
}
