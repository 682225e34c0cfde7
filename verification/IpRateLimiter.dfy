/** The per-IP rate limiter shared by all connections (src/network/ipRateLimiter.js). */
module IpRateLimiter {
  import opened Bytes
  import opened FixedWindow

  type Counters = map<string, Counter>

  function Get(m: Counters, ip: string): Option<Counter> {
    if ip in m then Some(m[ip]) else None
  }

  /** `allow`: the table afterwards and the answer. */
  function AllowStep(m: Counters, ip: string, now: int, limit: nat, window: nat): (Counters, bool) {
    var c := Bump(Get(m, ip), now, window);
    (m[ip := c], c.count <= limit)
  }

  predicate Stale(c: Counter, now: int, window: nat) {
    now - c.windowStart > window * 2
  }

  /** `cleanup`: drops the entries whose window ended at least one more window length ago. */
  function CleanupStep(m: Counters, now: int, window: nat): Counters {
    map ip | ip in m && !Stale(m[ip], now, window) :: m[ip]
  }

  datatype Event = Allow(ip: string, now: int) | Cleanup(now: int)

  /** The answers given to one IP during a run of calls by any IPs and cleanups. */
  function Answers(m: Counters, ip: string, events: seq<Event>, limit: nat, window: nat): seq<bool>
    decreases |events|
  {
    if events == [] then []
    else match events[0]
      case Cleanup(now) => Answers(CleanupStep(m, now, window), ip, events[1..], limit, window)
      case Allow(who, now) =>
        var (m', ok) := AllowStep(m, who, now, limit, window);
        (if who == ip then [ok] else []) + Answers(m', ip, events[1..], limit, window)
  }

  /** When that IP called. */
  function CallTimes(ip: string, events: seq<Event>): seq<int> {
    if events == [] then []
    else
      (if events[0].Allow? && events[0].ip == ip then [events[0].now] else []) + CallTimes(ip, events[1..])
  }

  /** A run whose clock starts no earlier than `since` and never goes back. */
  ghost predicate Clocked(events: seq<Event>, since: int)
    decreases |events|
  {
    events != [] ==> since <= events[0].now && Clocked(events[1..], events[0].now)
  }

  /** The entry is the one a table without cleanups would hold, or both count as expired. */
  ghost predicate Matches(entry: Option<Counter>, c: Option<Counter>, now: int, window: nat) {
    entry == c || (Expired(entry, now, window) && Expired(c, now, window))
  }

  lemma {:induction false} AnswersFrom(m: Counters, c: Option<Counter>, ip: string, events: seq<Event>,
                                       limit: nat, window: nat, since: int)
    requires Clocked(events, since)
    requires Matches(Get(m, ip), c, since, window)
    ensures Answers(m, ip, events, limit, window) == Run(c, CallTimes(ip, events), limit, window)
    decreases |events|
  {
    if events != [] {
      var e := events[0];
      match e {
        case Cleanup(now) =>
          AnswersFrom(CleanupStep(m, now, window), c, ip, events[1..], limit, window, now);
          assert CallTimes(ip, events) == CallTimes(ip, events[1..]);
        case Allow(who, now) =>
          var (m', ok) := AllowStep(m, who, now, limit, window);
          if who == ip {
            var c' := Some(Bump(c, now, window));
            AnswersFrom(m', c', ip, events[1..], limit, window, now);
            assert CallTimes(ip, events) == [now] + CallTimes(ip, events[1..]);
          } else {
            AnswersFrom(m', c, ip, events[1..], limit, window, now);
            assert CallTimes(ip, events) == CallTimes(ip, events[1..]);
          }
      }
    }
  }

  /**
   * Isolation and cleanup transparency. Whatever other IPs do and whenever `cleanup` runs, an IP gets
   * exactly the answers of a fixed-window counter of its own.
   */
  lemma OwnCounter(m: Counters, ip: string, events: seq<Event>, limit: nat, window: nat, since: int)
    requires Clocked(events, since)
    ensures Answers(m, ip, events, limit, window) == Run(Get(m, ip), CallTimes(ip, events), limit, window)
  {
    AnswersFrom(m, Get(m, ip), ip, events, limit, window, since);
  }

  function WithoutCleanups(events: seq<Event>): seq<Event> {
    if events == [] then []
    else (if events[0].Cleanup? then [] else [events[0]]) + WithoutCleanups(events[1..])
  }

  lemma {:induction false} WithoutCleanupsSame(ip: string, events: seq<Event>, since: int)
    requires Clocked(events, since)
    ensures Clocked(WithoutCleanups(events), since)
    ensures CallTimes(ip, WithoutCleanups(events)) == CallTimes(ip, events)
    decreases |events|
  {
    if events != [] {
      var rest := WithoutCleanups(events[1..]);
      WithoutCleanupsSame(ip, events[1..], events[0].now);
      if events[0].Cleanup? {
        assert WithoutCleanups(events) == rest;
        ClockedEarlier(rest, events[0].now, since);
      } else {
        assert WithoutCleanups(events)[1..] == rest;
      }
    }
  }

  lemma ClockedEarlier(events: seq<Event>, late: int, early: int)
    requires early <= late && Clocked(events, late)
    ensures Clocked(events, early)
  {}

  /** Dropping every cleanup from a run changes no answer. */
  lemma CleanupTransparent(m: Counters, ip: string, events: seq<Event>, limit: nat, window: nat, since: int)
    requires Clocked(events, since)
    ensures Answers(m, ip, events, limit, window) == Answers(m, ip, WithoutCleanups(events), limit, window)
  {
    WithoutCleanupsSame(ip, events, since);
    OwnCounter(m, ip, events, limit, window, since);
    OwnCounter(m, ip, WithoutCleanups(events), limit, window, since);
  }

  lemma {:induction false} CallTimesSorted(ip: string, events: seq<Event>, since: int)
    requires Clocked(events, since)
    ensures Sorted(CallTimes(ip, events))
    ensures forall i :: 0 <= i < |CallTimes(ip, events)| ==> since <= CallTimes(ip, events)[i]
    decreases |events|
  {
    if events != [] {
      CallTimesSorted(ip, events[1..], events[0].now);
    }
  }

  /**
   * Quota of an IP. From an empty table, whatever the other IPs and the cleanups do, the calls of one
   * IP inside a closed interval of one window length succeed at most `2 * limit - 1` times (never,
   * for a limit of zero).
   */
  lemma IpBurstBound(ip: string, events: seq<Event>, limit: nat, window: nat, since: int, i: nat, j: nat)
    requires Clocked(events, since)
    requires i < j <= |CallTimes(ip, events)|
    requires CallTimes(ip, events)[j - 1] - CallTimes(ip, events)[i] <= window
    ensures |Answers(map[], ip, events, limit, window)| == |CallTimes(ip, events)|
    ensures Count(Answers(map[], ip, events, limit, window)[i..j]) <= if limit == 0 then 0 else 2 * limit - 1
  {
    OwnCounter(map[], ip, events, limit, window, since);
    CallTimesSorted(ip, events, since);
    BurstBound(None, CallTimes(ip, events), limit, window, i, j);
  }

  // ---- What cleanups leave ----

  /** A cleanup keeps exactly the counters whose window began at most two windows ago, as they are. */
  lemma CleanupKeeps(m: Counters, now: int, window: nat)
    ensures forall ip :: ip in CleanupStep(m, now, window) <==> ip in m && now <= m[ip].windowStart + 2 * window
    ensures forall ip :: ip in CleanupStep(m, now, window) ==> CleanupStep(m, now, window)[ip] == m[ip]
  {}

  /** The table after a run of calls and cleanups. */
  function TableAfter(m: Counters, events: seq<Event>, limit: nat, window: nat): Counters
    decreases |events|
  {
    if events == [] then m
    else match events[0]
      case Cleanup(now) => TableAfter(CleanupStep(m, now, window), events[1..], limit, window)
      case Allow(ip, now) => TableAfter(AllowStep(m, ip, now, limit, window).0, events[1..], limit, window)
  }

  /** The address called between two times. */
  ghost predicate Called(events: seq<Event>, ip: string, since: int, until: int) {
    exists i :: 0 <= i < |events| && events[i].Allow? && events[i].ip == ip && since <= events[i].now <= until
  }

  /** Every counter left was there at the start, with its window, or was opened by a call of its address. */
  lemma {:induction false} CountersOpened(m: Counters, events: seq<Event>, limit: nat, window: nat, ip: string)
    requires ip in TableAfter(m, events, limit, window)
    ensures var c := TableAfter(m, events, limit, window)[ip];
            (ip in m && m[ip].windowStart == c.windowStart) || Called(events, ip, c.windowStart, c.windowStart)
    decreases |events|
  {
    if events != [] {
      var m' := if events[0].Cleanup? then CleanupStep(m, events[0].now, window)
                else AllowStep(m, events[0].ip, events[0].now, limit, window).0;
      CountersOpened(m', events[1..], limit, window, ip);
      var c := TableAfter(m, events, limit, window)[ip];
      if Called(events[1..], ip, c.windowStart, c.windowStart) {
        var i :| 0 <= i < |events[1..]| && events[1..][i].Allow? && events[1..][i].ip == ip
                 && c.windowStart <= events[1..][i].now <= c.windowStart;
        assert events[i + 1] == events[1..][i];
      } else if !(ip in m && m[ip].windowStart == c.windowStart) {
        assert events[0].Allow? && events[0].ip == ip && events[0].now == c.windowStart;
      }
    }
  }

  /**
   * The table does not grow without end: right after a cleanup at `now` every address left made a call in
   * the last two windows.
   */
  lemma CleanedTable(events: seq<Event>, limit: nat, window: nat, now: int, ip: string)
    requires ip in CleanupStep(TableAfter(map[], events, limit, window), now, window)
    ensures exists i :: 0 <= i < |events| && events[i].Allow? && events[i].ip == ip && events[i].now >= now - 2 * window
  {
    var m := TableAfter(map[], events, limit, window);
    CleanupKeeps(m, now, window);
    CountersOpened(map[], events, limit, window, ip);
    var i :| 0 <= i < |events| && events[i].Allow? && events[i].ip == ip
             && m[ip].windowStart <= events[i].now <= m[ip].windowStart;
  }

  class Limiter {
    const limit: nat
    const windowMs: nat
    var counters: Counters

    constructor (limit: nat, windowMs: nat)
      ensures this.limit == limit && this.windowMs == windowMs && counters == map[]
    {
      this.limit, this.windowMs, counters := limit, windowMs, map[];
    }

    method Allow(ip: string, now: int) returns (ok: bool)
      modifies this
      ensures (counters, ok) == AllowStep(old(counters), ip, now, limit, windowMs)
    {
      var c := Get(counters, ip);
      if c.None? || now - c.value.windowStart > windowMs {
        c := Some(Counter(0, now));
        counters := counters[ip := c.value];
      }
      c := Some(c.value.(count := c.value.count + 1));
      counters := counters[ip := c.value];
      ok := c.value.count <= limit;
      assert counters == old(counters)[ip := c.value];
    }

    method Cleanup(now: int)
      modifies this
      ensures counters == CleanupStep(old(counters), now, windowMs)
    {
      var todo := counters.Keys;
      while todo != {}
        invariant todo <= old(counters).Keys
        invariant counters == map ip | ip in old(counters) && (ip in todo || !Stale(old(counters)[ip], now, windowMs))
                                :: old(counters)[ip]
        decreases todo
      {
        var ip :| ip in todo;
        if now - counters[ip].windowStart > windowMs * 2 {
          counters := counters - {ip};
        }
        todo := todo - {ip};
      }
    }
  }
}
