/** The temporary IP blacklist (src/network/ipBlacklist.js). */
module IpBlacklist {
  import opened Arithmetic
  import opened Bytes
  import opened FixedWindow

  datatype Config = Config(banMs: pos, strikeThreshold: pos, strikeWindowMs: pos)

  const BLACKLIST_BAN_MS: pos := 300000
  const BLACKLIST_STRIKE_THRESHOLD: pos := 5
  const BLACKLIST_STRIKE_WINDOW_MS: pos := 60000

  const DEFAULTS := Config(BLACKLIST_BAN_MS, BLACKLIST_STRIKE_THRESHOLD, BLACKLIST_STRIKE_WINDOW_MS)

  // ---- What the blacklist knows about one IP ----

  datatype Entry = Entry(strikes: Option<Counter>, until: Option<int>)

  const CLEAN := Entry(None, None)

  datatype Answer = Struck(banned: bool, count: nat) | Queried(banned: bool) | Until(time: int)

  /** The answer tells the caller that the IP is banned. */
  predicate SaysBanned(a: Answer) {
    !a.Until? && a.banned
  }

  predicate Banned(e: Entry, now: int) {
    e.until.Some? && now < e.until.value
  }

  /** `isBanned`: a ban that is over is forgotten. */
  function OnQuery(e: Entry, now: int): (Entry, bool) {
    if Banned(e, now) then (e, true) else (e.(until := None), false)
  }

  /** `ban` */
  function OnBan(cfg: Config, now: int): Entry {
    Entry(None, Some(now + cfg.banMs))
  }

  /** `strike` */
  function OnStrike(cfg: Config, e: Entry, now: int): (Entry, Answer) {
    var (e', banned) := OnQuery(e, now);
    if banned then (e', Struck(true, cfg.strikeThreshold))
    else
      var s := Bump(e'.strikes, now, cfg.strikeWindowMs);
      if s.count >= cfg.strikeThreshold then (OnBan(cfg, now), Struck(true, s.count))
      else (Entry(Some(s), e'.until), Struck(false, s.count))
  }

  /** A query tells whether a ban is running, and forgets one that is over. */
  lemma QueryAnswers(e: Entry, now: int)
    ensures var (e', banned) := OnQuery(e, now);
            && (banned <==> e.until.Some? && now < e.until.value)
            && (e'.until == if banned then e.until else None) && e'.strikes == e.strikes
  {}

  /**
   * A strike during a ban changes nothing and tells the threshold. Otherwise it is counted with those of its
   * window, which it opens if none is open, and tells the count; reaching the threshold starts a ban and
   * forgets the count.
   */
  lemma StrikeAnswers(cfg: Config, e: Entry, now: int)
    ensures var (e', a) := OnStrike(cfg, e, now);
            if e.until.Some? && now < e.until.value then
              e' == e && a == Struck(true, cfg.strikeThreshold)
            else
              var running := e.strikes.Some? && now <= e.strikes.value.windowStart + cfg.strikeWindowMs;
              var count := if running then e.strikes.value.count + 1 else 1;
              var start := if running then e.strikes.value.windowStart else now;
              && a == Struck(count >= cfg.strikeThreshold, count)
              && e' == if count >= cfg.strikeThreshold then Entry(None, Some(now + cfg.banMs))
                       else Entry(Some(Counter(count, start)), None)
  {}

  /** An explicit ban forgets the strikes, runs for `banMs` and tells until when. */
  lemma BanAnswers(cfg: Config, e: Entry, now: int)
    ensures OnBan(cfg, now) == Entry(None, Some(now + cfg.banMs))
    ensures Step(cfg, e, Ban(now)) == (Entry(None, Some(now + cfg.banMs)), Until(now + cfg.banMs))
  {}

  datatype Op = Strike(now: int) | Query(now: int) | Ban(now: int)

  function Step(cfg: Config, e: Entry, op: Op): (Entry, Answer) {
    match op
    case Strike(now) => OnStrike(cfg, e, now)
    case Query(now) => var (e', b) := OnQuery(e, now); (e', Queried(b))
    case Ban(now) => (OnBan(cfg, now), Until(now + cfg.banMs))
  }

  function Run(cfg: Config, e: Entry, ops: seq<Op>): (r: seq<Answer>)
    ensures |r| == |ops|
    decreases |ops|
  {
    if ops == [] then []
    else
      var (e', a) := Step(cfg, e, ops[0]);
      [a] + Run(cfg, e', ops[1..])
  }

  function After(cfg: Config, e: Entry, ops: seq<Op>): Entry
    decreases |ops|
  {
    if ops == [] then e else After(cfg, Step(cfg, e, ops[0]).0, ops[1..])
  }

  lemma {:induction false} AfterSplit(cfg: Config, e: Entry, a: seq<Op>, b: seq<Op>)
    ensures After(cfg, e, a + b) == After(cfg, After(cfg, e, a), b)
    ensures Run(cfg, e, a + b) == Run(cfg, e, a) + Run(cfg, After(cfg, e, a), b)
    decreases |a|
  {
    if a == [] {
      assert a + b == b;
    } else {
      CutFront(a, b, 1);
      AfterSplit(cfg, Step(cfg, e, a[0]).0, a[1..], b);
    }
  }

  /** The clock starts no earlier than `since` and never goes back. */
  ghost predicate Clocked(ops: seq<Op>, since: int)
    decreases |ops|
  {
    ops != [] ==> since <= ops[0].now && Clocked(ops[1..], ops[0].now)
  }

  ghost predicate NoExplicitBan(ops: seq<Op>) {
    forall i :: 0 <= i < |ops| ==> !ops[i].Ban?
  }

  /** A stored counter has counted something and has not reached the threshold. */
  ghost predicate EntryInv(cfg: Config, e: Entry) {
    e.strikes.Some? ==> 1 <= e.strikes.value.count < cfg.strikeThreshold
  }

  lemma StepKeepsInv(cfg: Config, e: Entry, op: Op)
    requires EntryInv(cfg, e)
    ensures EntryInv(cfg, Step(cfg, e, op).0)
  {}

  lemma {:induction false} AfterKeepsInv(cfg: Config, e: Entry, ops: seq<Op>)
    requires EntryInv(cfg, e)
    ensures EntryInv(cfg, After(cfg, e, ops))
    decreases |ops|
  {
    if ops != [] {
      StepKeepsInv(cfg, e, ops[0]);
      AfterKeepsInv(cfg, Step(cfg, e, ops[0]).0, ops[1..]);
    }
  }

  // ---- Soundness: a ban has its strikes ----

  /** The strikes of a run at times in `[from, to]`. */
  function StrikesIn(ops: seq<Op>, from: int, to: int): nat {
    if ops == [] then 0
    else
      (if ops[0].Strike? && from <= ops[0].now <= to then 1 else 0) + StrikesIn(ops[1..], from, to)
  }

  lemma {:induction false} StrikesInAppend(a: seq<Op>, b: seq<Op>, from: int, to: int)
    ensures StrikesIn(a + b, from, to) == StrikesIn(a, from, to) + StrikesIn(b, from, to)
  {
    if a == [] {
      assert a + b == b;
    } else {
      CutFront(a, b, 1);
      StrikesInAppend(a[1..], b, from, to);
    }
  }

  lemma {:induction false} StrikesInWider(ops: seq<Op>, from: int, to: int, from': int, to': int)
    requires from' <= from && to <= to'
    ensures StrikesIn(ops, from, to) <= StrikesIn(ops, from', to')
  {
    if ops != [] {
      StrikesInWider(ops[1..], from, to, from', to');
    }
  }

  /** The moment `t` at which strikes alone would set a ban. */
  ghost predicate Deserved(cfg: Config, ops: seq<Op>, t: int) {
    StrikesIn(ops, t - cfg.strikeWindowMs, t) >= cfg.strikeThreshold
  }

  /** The strikes of the history account for the counter. */
  ghost predicate Counted(history: seq<Op>, c: Option<Counter>, now: int) {
    c.Some? ==> c.value.windowStart <= now && c.value.count <= StrikesIn(history, c.value.windowStart, now)
  }

  /** The strikes of the history account for the ban. */
  ghost predicate Earned(cfg: Config, history: seq<Op>, until: Option<int>, now: int) {
    until.Some? ==> until.value - cfg.banMs <= now && Deserved(cfg, history, until.value - cfg.banMs)
  }

  /** After a history without explicit bans, ending by `now`, the entry is explained by its strikes. */
  ghost predicate Explained(cfg: Config, history: seq<Op>, e: Entry, now: int) {
    Counted(history, e.strikes, now) && Earned(cfg, history, e.until, now)
  }

  lemma CountedLater(history: seq<Op>, c: Option<Counter>, since: int, op: Op)
    requires Counted(history, c, since) && since <= op.now
    ensures Counted(history + [op], c, op.now)
  {
    if c.Some? {
      var ws := c.value.windowStart;
      StrikesInAppend(history, [op], ws, op.now);
      StrikesInWider(history, ws, since, ws, op.now);
    }
  }

  lemma CountedBump(history: seq<Op>, c: Option<Counter>, since: int, now: int, window: nat)
    requires Counted(history, c, since) && since <= now
    ensures var s := Bump(c, now, window);
            Counted(history + [Strike(now)], Some(s), now) && now - window <= s.windowStart
  {
    var op := Strike(now);
    var ws := Bump(c, now, window).windowStart;
    StrikesInAppend(history, [op], ws, now);
    assert StrikesIn([op], ws, now) == 1;
    if !Expired(c, now, window) {
      StrikesInWider(history, ws, since, ws, now);
    }
  }

  lemma EarnedLater(cfg: Config, history: seq<Op>, until: Option<int>, since: int, op: Op)
    requires Earned(cfg, history, until, since) && since <= op.now
    ensures Earned(cfg, history + [op], until, op.now)
  {
    if until.Some? {
      var t := until.value - cfg.banMs;
      StrikesInAppend(history, [op], t - cfg.strikeWindowMs, t);
    }
  }

  lemma ExplainedStep(cfg: Config, history: seq<Op>, e: Entry, since: int, op: Op)
    requires Explained(cfg, history, e, since) && since <= op.now && !op.Ban?
    ensures Explained(cfg, history + [op], Step(cfg, e, op).0, op.now)
  {
    CountedLater(history, e.strikes, since, op);
    EarnedLater(cfg, history, e.until, since, op);
    if op.Strike? {
      var s := Bump(e.strikes, op.now, cfg.strikeWindowMs);
      CountedBump(history, e.strikes, since, op.now, cfg.strikeWindowMs);
      StrikesInWider(history + [op], s.windowStart, op.now, op.now - cfg.strikeWindowMs, op.now);
    }
  }

  lemma {:induction false} ExplainedRun(cfg: Config, history: seq<Op>, e: Entry, since: int, ops: seq<Op>)
    requires Explained(cfg, history, e, since) && Clocked(ops, since) && NoExplicitBan(ops)
    ensures Explained(cfg, history + ops, After(cfg, e, ops), if ops == [] then since else ops[|ops| - 1].now)
    decreases |ops|
  {
    if ops == [] {
      assert history + ops == history;
    } else {
      ExplainedStep(cfg, history, e, since, ops[0]);
      ExplainedRun(cfg, history + [ops[0]], Step(cfg, e, ops[0]).0, ops[0].now, ops[1..]);
      assert history + [ops[0]] + ops[1..] == history + ops;
    }
  }

  /**
   * Soundness. In a run from nothing without explicit bans, an IP found banned at `now` committed at
   * least `strikeThreshold` strikes within one strike window, ending at a moment `t` such that `now`
   * lies in `[t, t + banMs)`.
   */
  lemma BanSound(cfg: Config, ops: seq<Op>, since: int, now: int)
    requires Clocked(ops, since) && NoExplicitBan(ops)
    requires ops != [] ==> ops[|ops| - 1].now <= now
    requires Banned(After(cfg, CLEAN, ops), now)
    ensures var t := After(cfg, CLEAN, ops).until.value - cfg.banMs;
            t <= now < t + cfg.banMs && Deserved(cfg, ops, t)
  {
    ExplainedRun(cfg, [], CLEAN, since, ops);
    assert [] + ops == ops;
  }

  // ---- Completeness: enough strikes force a ban ----

  function StrikeCount(ops: seq<Op>): nat {
    if ops == [] then 0 else (if ops[0].Strike? then 1 else 0) + StrikeCount(ops[1..])
  }

  ghost predicate NeverBanned(cfg: Config, e: Entry, ops: seq<Op>) {
    forall i :: 0 <= i < |ops| && ops[i].Strike? ==> !SaysBanned(Run(cfg, e, ops)[i])
  }

  lemma NeverBannedTail(cfg: Config, e: Entry, ops: seq<Op>)
    requires ops != [] && NeverBanned(cfg, e, ops)
    ensures NeverBanned(cfg, Step(cfg, e, ops[0]).0, ops[1..])
    ensures ops[0].Strike? ==> !SaysBanned(Step(cfg, e, ops[0]).1)
  {
    var r := Run(cfg, e, ops);
    assert ops[0].Strike? ==> !SaysBanned(r[0]);
    forall i | 0 <= i < |ops[1..]| && ops[1..][i].Strike?
      ensures !SaysBanned(Run(cfg, Step(cfg, e, ops[0]).0, ops[1..])[i])
    {
      assert ops[i + 1].Strike? && !SaysBanned(r[i + 1]);
    }
  }

  /** Unbanned strikes that all fall in the current window fit under the threshold together. */
  lemma {:induction false} OneStrikeWindow(cfg: Config, e: Entry, ops: seq<Op>)
    requires EntryInv(cfg, e) && e.strikes.Some? && NoExplicitBan(ops) && NeverBanned(cfg, e, ops)
    requires forall i :: 0 <= i < |ops| ==> ops[i].now - e.strikes.value.windowStart <= cfg.strikeWindowMs
    ensures e.strikes.value.count + StrikeCount(ops) < cfg.strikeThreshold
    decreases |ops|
  {
    if ops != [] {
      NeverBannedTail(cfg, e, ops);
      assert !ops[0].Ban?;
      OneStrikeWindow(cfg, Step(cfg, e, ops[0]).0, ops[1..]);
    }
  }

  /** The largest number of strikes a single strike window can hold without a ban. */
  function MaxUnbanned(cfg: Config): nat {
    if cfg.strikeThreshold == 1 then 0 else 2 * cfg.strikeThreshold - 3
  }

  lemma {:induction false} TwoStrikeWindows(cfg: Config, e: Entry, ops: seq<Op>, since: int, to: int)
    requires EntryInv(cfg, e) && Clocked(ops, since) && NoExplicitBan(ops) && NeverBanned(cfg, e, ops)
    requires to - since <= cfg.strikeWindowMs
    requires forall i :: 0 <= i < |ops| ==> ops[i].now <= to
    ensures e.strikes.None? ==> StrikeCount(ops) < cfg.strikeThreshold
    ensures e.strikes.Some? ==> StrikeCount(ops) + e.strikes.value.count <= 2 * cfg.strikeThreshold - 2
    decreases |ops|
  {
    if ops != [] {
      NeverBannedTail(cfg, e, ops);
      assert !ops[0].Ban?;
      var e' := Step(cfg, e, ops[0]).0;
      StepKeepsInv(cfg, e, ops[0]);
      ClockedBounds(ops, since);
      if ops[0].Strike? && Expired(e.strikes, ops[0].now, cfg.strikeWindowMs) {
        OneStrikeWindow(cfg, e', ops[1..]);
      } else {
        TwoStrikeWindows(cfg, e', ops[1..], ops[0].now, to);
      }
    }
  }

  lemma {:induction false} ClockedBounds(ops: seq<Op>, since: int)
    requires Clocked(ops, since)
    ensures forall i :: 0 <= i < |ops| ==> since <= ops[i].now
    ensures ops != [] ==> forall i :: 0 <= i < |ops| ==> ops[i].now <= ops[|ops| - 1].now
    decreases |ops|
  {
    if ops != [] {
      ClockedBounds(ops[1..], ops[0].now);
      forall i | 0 <= i < |ops|
        ensures since <= ops[i].now <= ops[|ops| - 1].now
      {
        if i > 0 {
          assert ops[i] == ops[1..][i - 1];
        }
        if |ops| > 1 {
          assert ops[|ops| - 1] == ops[1..][|ops| - 2];
          assert ops[1..][0].now <= ops[|ops| - 1].now && ops[0].now <= ops[1..][0].now;
        }
      }
    }
  }

  /**
   * Completeness. In any reachable state, more than `2 * strikeThreshold - 3` strikes by one IP within
   * any `strikeWindowMs` (one strike, for a threshold of one) are answered by a ban at some point.
   */
  lemma EnoughStrikesBan(cfg: Config, before: seq<Op>, ops: seq<Op>, since: int)
    requires Clocked(ops, since) && NoExplicitBan(ops)
    requires ops != [] && ops[|ops| - 1].now - ops[0].now <= cfg.strikeWindowMs
    requires StrikeCount(ops) > MaxUnbanned(cfg)
    ensures exists i :: 0 <= i < |ops| && ops[i].Strike? && SaysBanned(Run(cfg, After(cfg, CLEAN, before), ops)[i])
  {
    var e := After(cfg, CLEAN, before);
    AfterKeepsInv(cfg, CLEAN, before);
    if NeverBanned(cfg, e, ops) {
      ClockedBounds(ops, since);
      TwoStrikeWindows(cfg, e, ops, ops[0].now, ops[|ops| - 1].now);
    }
  }

  /** `n` strikes at one moment. */
  function Volley(n: nat, now: int): (r: seq<Op>)
    ensures |r| == n && forall i :: 0 <= i < n ==> r[i] == Strike(now)
  {
    seq(n, _ => Strike(now))
  }

  lemma {:induction false} VolleyCount(n: nat, now: int, rest: seq<Op>, since: int)
    requires since <= now && Clocked(rest, now)
    ensures StrikeCount(Volley(n, now) + rest) == n + StrikeCount(rest)
    ensures Clocked(Volley(n, now) + rest, since)
  {
    if n == 0 {
      assert Volley(0, now) + rest == rest;
      ClockedEarlier(rest, now, since);
    } else {
      VolleyCount(n - 1, now, rest, now);
      assert (Volley(n, now) + rest)[1..] == Volley(n - 1, now) + rest;
    }
  }

  lemma ClockedEarlier(ops: seq<Op>, late: int, early: int)
    requires early <= late && Clocked(ops, late)
    ensures Clocked(ops, early)
  {}

  /** No answer of the run tells of a ban. */
  ghost predicate Unbanned(answers: seq<Answer>) {
    forall i :: 0 <= i < |answers| ==> !SaysBanned(answers[i])
  }

  /** Strikes in an open window that stay under the threshold pass, and only raise its count. */
  lemma {:induction false} VolleyPasses(cfg: Config, c: Counter, n: nat, now: int)
    requires now - c.windowStart <= cfg.strikeWindowMs && c.count + n < cfg.strikeThreshold
    ensures Unbanned(Run(cfg, Entry(Some(c), None), Volley(n, now)))
    ensures After(cfg, Entry(Some(c), None), Volley(n, now)) == Entry(Some(Counter(c.count + n, c.windowStart)), None)
    decreases n
  {
    if n > 0 {
      assert Volley(n, now)[1..] == Volley(n - 1, now);
      VolleyPasses(cfg, Counter(c.count + 1, c.windowStart), n - 1, now);
    }
  }

  /** The same when the first of them opens the window. */
  lemma VolleyOpens(cfg: Config, c: Counter, n: nat, now: int)
    requires now - c.windowStart > cfg.strikeWindowMs && 0 < n < cfg.strikeThreshold
    ensures Unbanned(Run(cfg, Entry(Some(c), None), Volley(n, now)))
  {
    assert Volley(n, now)[1..] == Volley(n - 1, now);
    VolleyPasses(cfg, Counter(1, now), n - 1, now);
  }

  /** A full window one strike opened at 0, then as many strikes as a new window holds, 1 ms later. */
  function LargestBurst(cfg: Config): seq<Op>
    requires cfg.strikeThreshold > 1
  {
    Volley(cfg.strikeThreshold - 2, cfg.strikeWindowMs) + Volley(cfg.strikeThreshold - 1, cfg.strikeWindowMs + 1)
  }

  /**
   * The window is fixed, not sliding as the comment of the class says: after one strike at 0, the
   * `2 * strikeThreshold - 3` strikes of this burst, all within one millisecond, pass without a ban.
   */
  lemma LargestBurstPasses(cfg: Config)
    requires cfg.strikeThreshold > 1
    ensures StrikeCount(LargestBurst(cfg)) == MaxUnbanned(cfg) && Clocked(LargestBurst(cfg), 0)
    ensures NeverBanned(cfg, After(cfg, CLEAN, [Strike(0)]), LargestBurst(cfg))
  {
    var t: nat, w: nat := cfg.strikeThreshold, cfg.strikeWindowMs;
    var a, b := Volley(t - 2, w), Volley(t - 1, w + 1);
    assert b + [] == b;
    VolleyCount(t - 1, w + 1, [], w);
    VolleyCount(t - 2, w, b, 0);
    var e := Entry(Some(Counter(1, 0)), None);
    assert After(cfg, CLEAN, [Strike(0)]) == After(cfg, e, []);
    VolleyPasses(cfg, Counter(1, 0), t - 2, w);
    VolleyOpens(cfg, Counter(t - 1, 0), t - 1, w + 1);
    AfterSplit(cfg, e, a, b);
  }

  /** Whatever happened before, `n` strikes within one window length are answered by a ban at some point. */
  ghost predicate Forces(cfg: Config, n: nat) {
    forall before: seq<Op>, ops: seq<Op>, since: int ::
      Clocked(ops, since) && NoExplicitBan(ops) && ops != []
      && ops[|ops| - 1].now - ops[0].now <= cfg.strikeWindowMs && StrikeCount(ops) >= n
      ==> !NeverBanned(cfg, After(cfg, CLEAN, before), ops)
  }

  /** That is so exactly when `n` exceeds the largest number of strikes that can pass. */
  lemma ForcedExactly(cfg: Config, n: nat)
    ensures Forces(cfg, n) <==> n > MaxUnbanned(cfg)
  {
    if n > MaxUnbanned(cfg) {
      forall before: seq<Op>, ops: seq<Op>, since: int |
          Clocked(ops, since) && NoExplicitBan(ops) && ops != []
          && ops[|ops| - 1].now - ops[0].now <= cfg.strikeWindowMs && StrikeCount(ops) >= n
        ensures !NeverBanned(cfg, After(cfg, CLEAN, before), ops)
      {
        EnoughStrikesBan(cfg, before, ops, since);
      }
    } else if cfg.strikeThreshold > 1 {
      LargestBurstPasses(cfg);
      BurstSpan(cfg);
    } else {
      var ops := [Query(0)];
      assert Clocked(ops, 0) && NoExplicitBan(ops) && StrikeCount(ops) == 0;
      assert NeverBanned(cfg, After(cfg, CLEAN, []), ops);
    }
  }

  /** With the default settings the eighth strike within a minute is answered by a ban, and seven may pass. */
  lemma DefaultsForce(n: nat)
    ensures Forces(DEFAULTS, n) <==> n >= 8
  {
    ForcedExactly(DEFAULTS, n);
  }

  lemma BurstSpan(cfg: Config)
    requires cfg.strikeThreshold > 1
    ensures var ops := LargestBurst(cfg);
            && ops != [] && NoExplicitBan(ops)
            && ops[|ops| - 1].now - ops[0].now <= 1
  {}

  // ---- A ban lasts exactly banMs ----

  /**
   * A ban set at `t` holds on `[t, t + banMs)` and not after: strikes and queries in between leave it
   * as it is, and the first strike after it starts a new count.
   */
  lemma {:induction false} BanExact(cfg: Config, t: int, ops: seq<Op>, since: int, now: int)
    requires Clocked(ops, since) && NoExplicitBan(ops)
    requires forall i :: 0 <= i < |ops| ==> ops[i].now < t + cfg.banMs
    ensures After(cfg, OnBan(cfg, t), ops) == OnBan(cfg, t)
    ensures OnQuery(After(cfg, OnBan(cfg, t), ops), now).1 <==> now < t + cfg.banMs
    ensures forall i :: 0 <= i < |ops| ==> SaysBanned(Run(cfg, OnBan(cfg, t), ops)[i])
    ensures now >= t + cfg.banMs && cfg.strikeThreshold > 1 ==>
              OnStrike(cfg, After(cfg, OnBan(cfg, t), ops), now).1 == Struck(false, 1)
    decreases |ops|
  {
    if ops != [] {
      assert !ops[0].Ban?;
      assert Step(cfg, OnBan(cfg, t), ops[0]).0 == OnBan(cfg, t);
      BanExact(cfg, t, ops[1..], ops[0].now, now);
    }
  }

  // ---- The whole table ----

  datatype Table = Table(strikes: map<string, Counter>, bans: map<string, int>)

  function EntryOf(t: Table, ip: string): Entry {
    Entry(if ip in t.strikes then Some(t.strikes[ip]) else None,
          if ip in t.bans then Some(t.bans[ip]) else None)
  }

  /** The table with the entry of one IP replaced and every other IP left alone. */
  function Put(t: Table, ip: string, e: Entry): (t': Table)
    ensures EntryOf(t', ip) == e
    ensures forall other :: other != ip ==> EntryOf(t', other) == EntryOf(t, other)
  {
    Table(if e.strikes.Some? then t.strikes[ip := e.strikes.value] else t.strikes - {ip},
          if e.until.Some? then t.bans[ip := e.until.value] else t.bans - {ip})
  }

  lemma PutSame(t: Table, ip: string)
    ensures Put(t, ip, EntryOf(t, ip)) == t
  {
    assert ip in t.strikes ==> t.strikes[ip := t.strikes[ip]] == t.strikes;
    assert ip !in t.strikes ==> t.strikes - {ip} == t.strikes;
    assert ip in t.bans ==> t.bans[ip := t.bans[ip]] == t.bans;
    assert ip !in t.bans ==> t.bans - {ip} == t.bans;
  }

  lemma PutTwice(t: Table, ip: string, e1: Entry, e2: Entry)
    ensures Put(Put(t, ip, e1), ip, e2) == Put(t, ip, e2)
  {
    var a, b := Put(Put(t, ip, e1), ip, e2), Put(t, ip, e2);
    assert a.strikes == b.strikes;
    assert a.bans == b.bans;
  }

  /** `cleanup` */
  function CleanupStep(cfg: Config, t: Table, now: int): Table {
    Table(map ip | ip in t.strikes && !(now - t.strikes[ip].windowStart > cfg.strikeWindowMs) :: t.strikes[ip],
          map ip | ip in t.bans && !(now >= t.bans[ip]) :: t.bans[ip])
  }

  datatype Event = Do(ip: string, op: Op) | Cleanup(time: int)

  function TimeOf(e: Event): int {
    if e.Do? then e.op.now else e.time
  }

  ghost predicate EventsClocked(events: seq<Event>, since: int)
    decreases |events|
  {
    events != [] ==> since <= TimeOf(events[0]) && EventsClocked(events[1..], TimeOf(events[0]))
  }

  /** The answers one IP gets during a run of operations on any IPs and cleanups. */
  function Answers(cfg: Config, t: Table, ip: string, events: seq<Event>): seq<Answer>
    decreases |events|
  {
    if events == [] then []
    else match events[0]
      case Cleanup(now) => Answers(cfg, CleanupStep(cfg, t, now), ip, events[1..])
      case Do(who, op) =>
        var (e, a) := Step(cfg, EntryOf(t, who), op);
        (if who == ip then [a] else []) + Answers(cfg, Put(t, who, e), ip, events[1..])
  }

  function OpsOf(ip: string, events: seq<Event>): seq<Op> {
    if events == [] then []
    else (if events[0].Do? && events[0].ip == ip then [events[0].op] else []) + OpsOf(ip, events[1..])
  }

  /** The stored entry is the one a table without cleanups would hold, up to expired counters and bans. */
  ghost predicate Matches(cfg: Config, stored: Entry, e: Entry, now: int) {
    && (stored.strikes == e.strikes
        || (Expired(stored.strikes, now, cfg.strikeWindowMs) && Expired(e.strikes, now, cfg.strikeWindowMs)))
    && (stored.until == e.until || (!Banned(stored, now) && !Banned(e, now)))
  }

  lemma MatchesStep(cfg: Config, stored: Entry, e: Entry, since: int, op: Op)
    requires Matches(cfg, stored, e, since) && since <= op.now
    ensures Step(cfg, stored, op).1 == Step(cfg, e, op).1
    ensures Matches(cfg, Step(cfg, stored, op).0, Step(cfg, e, op).0, op.now)
  {}

  lemma MatchesLater(cfg: Config, stored: Entry, e: Entry, since: int, now: int)
    requires Matches(cfg, stored, e, since) && since <= now
    ensures Matches(cfg, stored, e, now)
  {}

  lemma MatchesCleanup(cfg: Config, t: Table, ip: string, e: Entry, since: int, now: int)
    requires Matches(cfg, EntryOf(t, ip), e, since) && since <= now
    ensures Matches(cfg, EntryOf(CleanupStep(cfg, t, now), ip), e, now)
  {}

  lemma {:induction false} AnswersFrom(cfg: Config, t: Table, e: Entry, ip: string, events: seq<Event>, since: int)
    requires EventsClocked(events, since) && Matches(cfg, EntryOf(t, ip), e, since)
    ensures Answers(cfg, t, ip, events) == Run(cfg, e, OpsOf(ip, events))
    ensures Clocked(OpsOf(ip, events), since)
    decreases |events|
  {
    if events != [] {
      var now, rest := TimeOf(events[0]), OpsOf(ip, events[1..]);
      match events[0] {
        case Cleanup(_) =>
          MatchesCleanup(cfg, t, ip, e, since, now);
          AnswersFrom(cfg, CleanupStep(cfg, t, now), e, ip, events[1..], now);
          assert OpsOf(ip, events) == rest;
        case Do(who, op) =>
          var t' := Put(t, who, Step(cfg, EntryOf(t, who), op).0);
          if who == ip {
            MatchesStep(cfg, EntryOf(t, ip), e, since, op);
            AnswersFrom(cfg, t', Step(cfg, e, op).0, ip, events[1..], now);
            assert OpsOf(ip, events) == [op] + rest;
          } else {
            MatchesLater(cfg, EntryOf(t, ip), e, since, now);
            AnswersFrom(cfg, t', e, ip, events[1..], now);
            assert OpsOf(ip, events) == rest;
          }
      }
    }
  }

  /**
   * Isolation and cleanup transparency. Whatever happens to other IPs and whenever `cleanup` runs, an
   * IP gets the answers its own operations alone would get without any cleanup.
   */
  lemma OwnEntry(cfg: Config, t: Table, ip: string, events: seq<Event>, since: int)
    requires EventsClocked(events, since)
    ensures Answers(cfg, t, ip, events) == Run(cfg, EntryOf(t, ip), OpsOf(ip, events))
  {
    AnswersFrom(cfg, t, EntryOf(t, ip), ip, events, since);
  }

  /** A cleanup forgets exactly the bans that are over and the strikes whose window is; the rest stays as it is. */
  lemma CleanupKeeps(cfg: Config, t: Table, now: int)
    ensures var t' := CleanupStep(cfg, t, now);
            && (forall ip :: ip in t'.bans <==> ip in t.bans && now < t.bans[ip])
            && (forall ip :: ip in t'.bans ==> t'.bans[ip] == t.bans[ip])
            && (forall ip :: ip in t'.strikes <==> ip in t.strikes && now <= t.strikes[ip].windowStart + cfg.strikeWindowMs)
            && (forall ip :: ip in t'.strikes ==> t'.strikes[ip] == t.strikes[ip])
  {}

  class Blacklist {
    const cfg: Config
    var strikes: map<string, Counter>
    var bans: map<string, int>

    /** A setting of zero stands for the default. */
    constructor (banMs: nat, strikeThreshold: nat, strikeWindowMs: nat)
      ensures cfg == Config(if banMs > 0 then banMs else BLACKLIST_BAN_MS,
                            if strikeThreshold > 0 then strikeThreshold else BLACKLIST_STRIKE_THRESHOLD,
                            if strikeWindowMs > 0 then strikeWindowMs else BLACKLIST_STRIKE_WINDOW_MS)
      ensures strikes == map[] && bans == map[]
    {
      cfg := Config(if banMs > 0 then banMs else BLACKLIST_BAN_MS,
                    if strikeThreshold > 0 then strikeThreshold else BLACKLIST_STRIKE_THRESHOLD,
                    if strikeWindowMs > 0 then strikeWindowMs else BLACKLIST_STRIKE_WINDOW_MS);
      strikes, bans := map[], map[];
    }

    function State(): Table
      reads this
    {
      Table(strikes, bans)
    }

    method IsBanned(ip: string, now: int) returns (banned: bool)
      modifies this`bans
      ensures var (e, b) := OnQuery(EntryOf(old(State()), ip), now);
              banned == b && State() == Put(old(State()), ip, e)
    {
      assert strikes == strikes - {ip} || ip in strikes;
      assert ip in strikes ==> strikes == strikes[ip := strikes[ip]];
      if ip !in bans {
        assert bans == bans - {ip};
        return false;
      }
      var until := bans[ip];
      if now >= until {
        bans := bans - {ip};
        return false;
      }
      assert bans == bans[ip := until];
      return true;
    }

    method Ban(ip: string, now: int) returns (until: int)
      modifies this
      ensures State() == Put(old(State()), ip, OnBan(cfg, now)) && until == now + cfg.banMs
    {
      bans := bans[ip := now + cfg.banMs];
      strikes := strikes - {ip};
      until := now + cfg.banMs;
    }

    method Strike(ip: string, now: int) returns (banned: bool, count: nat)
      modifies this
      ensures var (e, a) := OnStrike(cfg, EntryOf(old(State()), ip), now);
              a == Struck(banned, count) && State() == Put(old(State()), ip, e)
    {
      var already := IsBanned(ip, now);
      if already {
        return true, cfg.strikeThreshold;
      }
      ghost var t := State();
      ghost var e := EntryOf(t, ip);
      if ip !in strikes || now - strikes[ip].windowStart > cfg.strikeWindowMs {
        strikes := strikes[ip := Counter(0, now)];
      }
      var s := strikes[ip].(count := strikes[ip].count + 1);
      strikes := strikes[ip := s];
      assert s == Bump(e.strikes, now, cfg.strikeWindowMs);
      assert strikes == t.strikes[ip := s];
      PutSame(t, ip);
      PutTwice(old(State()), ip, e, Entry(Some(s), e.until));
      assert State() == Put(t, ip, Entry(Some(s), e.until));
      if s.count >= cfg.strikeThreshold {
        PutTwice(old(State()), ip, Entry(Some(s), e.until), OnBan(cfg, now));
        var until := Ban(ip, now);
        return true, s.count;
      }
      return false, s.count;
    }

    method Cleanup(now: int)
      modifies this
      ensures State() == CleanupStep(cfg, old(State()), now)
    {
      var todo := bans.Keys;
      while todo != {}
        invariant todo <= old(bans).Keys && strikes == old(strikes)
        invariant bans == map ip | ip in old(bans) && (ip in todo || !(now >= old(bans)[ip])) :: old(bans)[ip]
        decreases todo
      {
        var ip :| ip in todo;
        if now >= bans[ip] {
          bans := bans - {ip};
        }
        todo := todo - {ip};
      }
      todo := strikes.Keys;
      while todo != {}
        invariant todo <= old(strikes).Keys
        invariant bans == CleanupStep(cfg, old(State()), now).bans
        invariant strikes == map ip | ip in old(strikes)
                               && (ip in todo || !(now - old(strikes)[ip].windowStart > cfg.strikeWindowMs))
                                 :: old(strikes)[ip]
        decreases todo
      {
        var ip :| ip in todo;
        if now - strikes[ip].windowStart > cfg.strikeWindowMs {
          strikes := strikes - {ip};
        }
        todo := todo - {ip};
      }
    }
  }
}
