/** The anti-replay cache of the packet protocol (src/protocol/replay.js). */
module Replay {
  import opened Bytes

  const REPLAY_WINDOW_MS: nat := 30000
  const REPLAY_CACHE_MAX: nat := 100000

  // ---- Cache keys: hex(nodeId) ":" hex(nonce) ----

  const DIGITS: string := "0123456789abcdef"

  function Hex(s: bytes): string {
    if s == [] then "" else [DIGITS[s[0] / 16], DIGITS[s[0] % 16]] + Hex(s[1..])
  }

  /** The sixteen digits differ, and none of them is a colon. */
  lemma DigitsDiffer(a: nat, b: nat)
    requires a < 16 && b < 16
    ensures DIGITS[a] == DIGITS[b] <==> a == b
    ensures DIGITS[a] != ':'
  {}

  lemma {:induction false} HexHasNoColon(s: bytes)
    ensures ':' !in Hex(s)
  {
    if s != [] {
      HexHasNoColon(s[1..]);
      DigitsDiffer(s[0] / 16, s[0] % 16);
      DigitsDiffer(s[0] % 16, s[0] / 16);
    }
  }

  function Key(nodeId: bytes, nonce: bytes): string {
    Hex(nodeId) + ":" + Hex(nonce)
  }

  lemma {:induction false} HexInjective(a: bytes, b: bytes)
    requires Hex(a) == Hex(b)
    ensures a == b
  {
    if a != [] && b != [] {
      HexParts(a);
      HexParts(b);
      DigitsDiffer(a[0] / 16, b[0] / 16);
      DigitsDiffer(a[0] % 16, b[0] % 16);
      HexInjective(a[1..], b[1..]);
      assert a == [a[0]] + a[1..] && b == [b[0]] + b[1..];
    }
  }

  lemma HexParts(a: bytes)
    requires a != []
    ensures var x := Hex(a);
            |x| >= 2 && x[0] == DIGITS[a[0] / 16] && x[1] == DIGITS[a[0] % 16] && x[2..] == Hex(a[1..])
  {}

  lemma ColonSplits(a: string, b: string, c: string, d: string)
    requires ':' !in a && ':' !in c
    requires a + ":" + b == c + ":" + d
    ensures a == c && b == d
  {
    var s := a + ":" + b;
    assert s[|a|] == ':' && s[|c|] == ':';
    assert |a| == |c|;
    assert a == s[..|a|] && c == s[..|c|];
    assert b == s[|a| + 1..] && d == s[|c| + 1..];
  }

  /** Two packets share a cache key exactly when they share node and nonce. */
  lemma KeyInjective(n1: bytes, m1: bytes, n2: bytes, m2: bytes)
    ensures Key(n1, m1) == Key(n2, m2) <==> n1 == n2 && m1 == m2
  {
    if Key(n1, m1) == Key(n2, m2) {
      HexHasNoColon(n1);
      HexHasNoColon(n2);
      ColonSplits(Hex(n1), Hex(m1), Hex(n2), Hex(m2));
      HexInjective(n1, n2);
      HexInjective(m1, m2);
    }
  }

  // ---- One check ----

  /** An entry of the insertion-ordered map: the key and the sender's timestamp. */
  datatype Item = Item(key: string, ts: int)

  datatype Time = Finite(ms: int) | NotFinite

  datatype Reason = OutOfWindow | Seen

  datatype Verdict = Accept | Reject(why: Reason)

  datatype Config = Config(windowMs: nat, maxEntries: int)

  datatype Request = Request(nodeId: bytes, timestamp: Time, nonce: bytes, now: int)

  function KeyOf(r: Request): string {
    Key(r.nodeId, r.nonce)
  }

  function Abs(x: int): nat {
    if x < 0 then -x else x
  }

  predicate Fresh(cfg: Config, r: Request) {
    r.timestamp.Finite? && Abs(r.now - r.timestamp.ms) <= cfg.windowMs
  }

  /** `_purge`: drops expired entries from the front and stops at the first one still valid. */
  function Purge(cfg: Config, seen: seq<Item>, now: int): seq<Item> {
    if seen != [] && now - seen[0].ts > cfg.windowMs then Purge(cfg, seen[1..], now) else seen
  }

  predicate Has(seen: seq<Item>, key: string) {
    exists i :: 0 <= i < |seen| && seen[i].key == key
  }

  /** Makes room when the cache is full; deleting from an empty map does nothing. */
  function Evict(cfg: Config, seen: seq<Item>): seq<Item> {
    if |seen| >= cfg.maxEntries && seen != [] then seen[1..] else seen
  }

  function Check(cfg: Config, seen: seq<Item>, r: Request): (seq<Item>, Verdict) {
    if !Fresh(cfg, r) then (seen, Reject(OutOfWindow))
    else
      var s := Purge(cfg, seen, r.now);
      if Has(s, KeyOf(r)) then (s, Reject(Seen))
      else (Evict(cfg, s) + [Item(KeyOf(r), r.timestamp.ms)], Accept)
  }

  /** Map keys are unique. */
  ghost predicate Distinct(seen: seq<Item>) {
    forall i, j :: 0 <= i < j < |seen| ==> seen[i].key != seen[j].key
  }

  function Cap(cfg: Config): nat {
    if cfg.maxEntries < 1 then 1 else cfg.maxEntries
  }

  ghost predicate CacheInv(cfg: Config, seen: seq<Item>) {
    Distinct(seen) && |seen| <= Cap(cfg)
  }

  /** What the purge drops, entry by entry, is a prefix of expired entries. */
  lemma {:induction false} PurgeIsSuffix(cfg: Config, seen: seq<Item>, now: int)
    ensures |Purge(cfg, seen, now)| <= |seen|
    ensures Purge(cfg, seen, now) == seen[|seen| - |Purge(cfg, seen, now)|..]
    ensures forall i :: 0 <= i < |seen| - |Purge(cfg, seen, now)| ==> now - seen[i].ts > cfg.windowMs
    decreases |seen|
  {
    if seen != [] && now - seen[0].ts > cfg.windowMs {
      PurgeIsSuffix(cfg, seen[1..], now);
      var n := |seen| - |Purge(cfg, seen, now)|;
      forall i | 0 <= i < n
        ensures now - seen[i].ts > cfg.windowMs
      {
        if i > 0 {
          assert seen[i] == seen[1..][i - 1];
        }
      }
    }
  }

  lemma CheckKeepsInv(cfg: Config, seen: seq<Item>, r: Request)
    requires CacheInv(cfg, seen)
    ensures CacheInv(cfg, Check(cfg, seen, r).0)
  {
    if Fresh(cfg, r) {
      var s := Purge(cfg, seen, r.now);
      var k := |seen| - |s|;
      PurgeIsSuffix(cfg, seen, r.now);
      assert forall i :: 0 <= i < |s| ==> s[i] == seen[k + i];
      assert Distinct(s);
      if !Has(s, KeyOf(r)) {
        EvictKeeps(cfg, s);
        forall i | 0 <= i < |Evict(cfg, s)|
          ensures Evict(cfg, s)[i].key != KeyOf(r)
        {
          assert Evict(cfg, s)[i] in s;
        }
      }
    }
  }

  lemma EvictKeeps(cfg: Config, s: seq<Item>)
    requires Distinct(s) && |s| <= Cap(cfg)
    ensures Distinct(Evict(cfg, s)) && |Evict(cfg, s)| < Cap(cfg)
    ensures forall x :: x in Evict(cfg, s) ==> x in s
  {
    assert forall i :: 0 <= i < |s| - 1 ==> s[1..][i] == s[i + 1];
  }

  // ---- Whole runs ----

  function Run(cfg: Config, seen: seq<Item>, reqs: seq<Request>): seq<Item>
  {
    if reqs == [] then seen
    else Check(cfg, Run(cfg, seen, reqs[..|reqs| - 1]), reqs[|reqs| - 1]).0
  }

  /** The verdict on request `i` of a run from an empty cache. */
  function VerdictAt(cfg: Config, reqs: seq<Request>, i: nat): Verdict
    requires i < |reqs|
  {
    Check(cfg, Run(cfg, [], reqs[..i]), reqs[i]).1
  }

  ghost predicate Clocked(reqs: seq<Request>) {
    forall i, j :: 0 <= i <= j < |reqs| ==> reqs[i].now <= reqs[j].now
  }

  /** How many of the requests at positions `[lo, hi)` were accepted. */
  function Accepted(cfg: Config, reqs: seq<Request>, lo: nat, hi: nat): nat
    requires lo <= hi <= |reqs|
    decreases hi
  {
    if lo == hi then 0
    else Accepted(cfg, reqs, lo, hi - 1) + if VerdictAt(cfg, reqs, hi - 1) == Accept then 1 else 0
  }

  lemma {:induction false} RunKeepsInv(cfg: Config, reqs: seq<Request>)
    ensures CacheInv(cfg, Run(cfg, [], reqs))
    decreases |reqs|
  {
    if reqs != [] {
      RunKeepsInv(cfg, reqs[..|reqs| - 1]);
      CheckKeepsInv(cfg, Run(cfg, [], reqs[..|reqs| - 1]), reqs[|reqs| - 1]);
    }
  }

  /** The cache never outgrows its bound (a bound below one acts as one). */
  lemma CacheBounded(cfg: Config, reqs: seq<Request>)
    ensures |Run(cfg, [], reqs)| <= Cap(cfg)
    ensures Distinct(Run(cfg, [], reqs))
  {
    RunKeepsInv(cfg, reqs);
  }

  /**
   * After an acceptance of `item` followed by `n` others, the entry sits exactly `n` places from the
   * end of the cache, or `n` has reached the capacity and the entry is gone.
   */
  ghost predicate Tracked(cfg: Config, seen: seq<Item>, item: Item, n: nat) {
    if n < Cap(cfg) then n < |seen| && seen[|seen| - 1 - n] == item
    else !Has(seen, item.key)
  }

  /** A check that neither expires the tracked entry nor presents its key moves it by the verdict. */
  lemma TrackedStep(cfg: Config, seen: seq<Item>, item: Item, n: nat, r: Request)
    requires CacheInv(cfg, seen) && Tracked(cfg, seen, item, n)
    requires r.now - item.ts <= cfg.windowMs
    requires KeyOf(r) != item.key
    ensures Tracked(cfg, Check(cfg, seen, r).0, item, if Check(cfg, seen, r).1 == Accept then n + 1 else n)
  {
    var s := Purge(cfg, seen, r.now);
    PurgeIsSuffix(cfg, seen, r.now);
    if n < Cap(cfg) {
      assert |s| > n && s[|s| - 1 - n] == item;
      if Check(cfg, seen, r).1 == Accept && n + 1 == Cap(cfg) {
        assert |s| == Cap(cfg) && s[0] == item;
      }
    }
  }

  /** The same check presented with the tracked key: refused while tracked, accepted once gone. */
  lemma TrackedDecides(cfg: Config, seen: seq<Item>, item: Item, n: nat, r: Request)
    requires CacheInv(cfg, seen) && Tracked(cfg, seen, item, n)
    requires r.now - item.ts <= cfg.windowMs
    requires KeyOf(r) == item.key && Fresh(cfg, r)
    ensures Check(cfg, seen, r).1 == if n < Cap(cfg) then Reject(Seen) else Accept
    ensures n < Cap(cfg) ==> Tracked(cfg, Check(cfg, seen, r).0, item, n)
  {
    var s := Purge(cfg, seen, r.now);
    PurgeIsSuffix(cfg, seen, r.now);
    if n < Cap(cfg) {
      assert s[|s| - 1 - n] == item;
    }
  }

  lemma TrackedStart(cfg: Config, seen: seq<Item>, r: Request)
    requires CacheInv(cfg, seen) && Check(cfg, seen, r).1 == Accept
    ensures Tracked(cfg, Check(cfg, seen, r).0, Item(KeyOf(r), r.timestamp.ms), 0)
  {}

  lemma TrackedOther(cfg: Config, seen: seq<Item>, item: Item, n: nat, r: Request)
    requires CacheInv(cfg, seen) && Tracked(cfg, seen, item, n)
    requires r.now - item.ts <= cfg.windowMs
    requires KeyOf(r) == item.key ==> Check(cfg, seen, r).1 != Accept
    ensures Tracked(cfg, Check(cfg, seen, r).0, item, if Check(cfg, seen, r).1 == Accept then n + 1 else n)
  {
    if KeyOf(r) != item.key {
      TrackedStep(cfg, seen, item, n, r);
    } else if Fresh(cfg, r) {
      TrackedDecides(cfg, seen, item, n, r);
    }
  }

  lemma RunSnoc(cfg: Config, reqs: seq<Request>, j: nat)
    requires 0 < j <= |reqs|
    ensures Run(cfg, [], reqs[..j]) == Check(cfg, Run(cfg, [], reqs[..j - 1]), reqs[j - 1]).0
  {
    assert reqs[..j][..j - 1] == reqs[..j - 1];
  }

  /** Request `i` was accepted and no later request before `j` with its key was. */
  ghost predicate LastAcceptance(cfg: Config, reqs: seq<Request>, i: nat, j: nat) {
    && i < j <= |reqs|
    && VerdictAt(cfg, reqs, i) == Accept
    && forall k :: i < k < j && KeyOf(reqs[k]) == KeyOf(reqs[i]) ==> VerdictAt(cfg, reqs, k) != Accept
  }

  // What follows an acceptance, told by the caches between the checks and by which checks accepted.

  /** Whatever number of acceptances the entry had behind it, it has one more exactly if this check accepted. */
  ghost predicate TracksAt(cfg: Config, caches: seq<seq<Item>>, accepted: seq<bool>, item: Item, k: nat)
    requires k < |accepted| && |caches| == |accepted| + 1
  {
    forall n: nat :: Tracked(cfg, caches[k], item, n) ==> Tracked(cfg, caches[k + 1], item, if accepted[k] then n + 1 else n)
  }

  function CountIn(accepted: seq<bool>, lo: nat, hi: nat): nat
    requires lo <= hi <= |accepted|
    decreases hi
  {
    if lo == hi then 0 else CountIn(accepted, lo, hi - 1) + if accepted[hi - 1] then 1 else 0
  }

  lemma {:induction false} TrackedThrough(cfg: Config, caches: seq<seq<Item>>, accepted: seq<bool>, item: Item, lo: nat, hi: nat)
    requires lo <= hi <= |accepted| && |caches| == |accepted| + 1 && Tracked(cfg, caches[lo], item, 0)
    requires forall k :: lo <= k < hi ==> TracksAt(cfg, caches, accepted, item, k)
    ensures Tracked(cfg, caches[hi], item, CountIn(accepted, lo, hi))
    decreases hi
  {
    if lo < hi {
      TrackedThrough(cfg, caches, accepted, item, lo, hi - 1);
      assert TracksAt(cfg, caches, accepted, item, hi - 1);
    }
  }

  /** The cache before each request, and after the last. */
  function Caches(cfg: Config, reqs: seq<Request>): (r: seq<seq<Item>>)
    ensures |r| == |reqs| + 1
    ensures forall n :: 0 <= n <= |reqs| ==> r[n] == Run(cfg, [], reqs[..n])
  {
    seq(|reqs| + 1, n requires 0 <= n <= |reqs| => Run(cfg, [], reqs[..n]))
  }

  function Acceptances(cfg: Config, reqs: seq<Request>): (r: seq<bool>)
    ensures |r| == |reqs|
    ensures forall n :: 0 <= n < |reqs| ==> r[n] == (VerdictAt(cfg, reqs, n) == Accept)
  {
    seq(|reqs|, n requires 0 <= n < |reqs| => VerdictAt(cfg, reqs, n) == Accept)
  }

  lemma {:induction false} AcceptedIsCount(cfg: Config, reqs: seq<Request>, accepted: seq<bool>, lo: nat, hi: nat)
    requires lo <= hi <= |reqs| == |accepted|
    requires forall n :: 0 <= n < |reqs| ==> accepted[n] == (VerdictAt(cfg, reqs, n) == Accept)
    ensures Accepted(cfg, reqs, lo, hi) == CountIn(accepted, lo, hi)
    decreases hi
  {
    if lo < hi {
      AcceptedIsCount(cfg, reqs, accepted, lo, hi - 1);
    }
  }

  lemma RequestTracks(cfg: Config, reqs: seq<Request>, item: Item, k: nat)
    requires k < |reqs| && reqs[k].now - item.ts <= cfg.windowMs
    requires KeyOf(reqs[k]) == item.key ==> VerdictAt(cfg, reqs, k) != Accept
    ensures TracksAt(cfg, Caches(cfg, reqs), Acceptances(cfg, reqs), item, k)
  {
    forall n: nat | Tracked(cfg, Caches(cfg, reqs)[k], item, n)
      ensures Tracked(cfg, Caches(cfg, reqs)[k + 1], item, if Acceptances(cfg, reqs)[k] then n + 1 else n)
    {
      TrackedNext(cfg, reqs, item, n, k + 1);
    }
  }

  lemma TrackedAtOnce(cfg: Config, reqs: seq<Request>, i: nat)
    requires i < |reqs| && VerdictAt(cfg, reqs, i) == Accept
    ensures Tracked(cfg, Run(cfg, [], reqs[..i + 1]), Item(KeyOf(reqs[i]), reqs[i].timestamp.ms), 0)
  {
    RunSnoc(cfg, reqs, i + 1);
    RunKeepsInv(cfg, reqs[..i]);
    TrackedStart(cfg, Run(cfg, [], reqs[..i]), reqs[i]);
  }

  /** One request more. */
  lemma TrackedNext(cfg: Config, reqs: seq<Request>, item: Item, n: nat, j: nat)
    requires 0 < j <= |reqs| && Tracked(cfg, Run(cfg, [], reqs[..j - 1]), item, n)
    requires reqs[j - 1].now - item.ts <= cfg.windowMs
    requires KeyOf(reqs[j - 1]) == item.key ==> VerdictAt(cfg, reqs, j - 1) != Accept
    ensures Tracked(cfg, Run(cfg, [], reqs[..j]), item, if VerdictAt(cfg, reqs, j - 1) == Accept then n + 1 else n)
  {
    RunSnoc(cfg, reqs, j);
    RunKeepsInv(cfg, reqs[..j - 1]);
    TrackedOther(cfg, Run(cfg, [], reqs[..j - 1]), item, n, reqs[j - 1]);
  }

  lemma TrackedRun(cfg: Config, reqs: seq<Request>, i: nat, j: nat)
    requires Clocked(reqs) && LastAcceptance(cfg, reqs, i, j)
    requires forall k :: i <= k < j ==> reqs[k].now - reqs[i].timestamp.ms <= cfg.windowMs
    ensures Tracked(cfg, Run(cfg, [], reqs[..j]), Item(KeyOf(reqs[i]), reqs[i].timestamp.ms),
                    Accepted(cfg, reqs, i + 1, j))
  {
    var item := Item(KeyOf(reqs[i]), reqs[i].timestamp.ms);
    TrackedAtOnce(cfg, reqs, i);
    forall k | i < k < j
      ensures TracksAt(cfg, Caches(cfg, reqs), Acceptances(cfg, reqs), item, k)
    {
      RequestTracks(cfg, reqs, item, k);
    }
    TrackedThrough(cfg, Caches(cfg, reqs), Acceptances(cfg, reqs), item, i + 1, j);
    AcceptedIsCount(cfg, reqs, Acceptances(cfg, reqs), i + 1, j);
  }

  /**
   * When a replay gets through. Let `i` be the latest acceptance of a (node, nonce) pair before `j`,
   * not yet expired when `j` arrives. A fresh request `j` with the same pair is accepted if and only
   * if at least `Cap(cfg)` other requests were accepted strictly between the two.
   */
  lemma ReplayIff(cfg: Config, reqs: seq<Request>, i: nat, j: nat)
    requires Clocked(reqs) && j < |reqs| && LastAcceptance(cfg, reqs, i, j)
    requires KeyOf(reqs[j]) == KeyOf(reqs[i]) && Fresh(cfg, reqs[j])
    requires reqs[j].now - reqs[i].timestamp.ms <= cfg.windowMs
    ensures VerdictAt(cfg, reqs, j) == Accept <==> Accepted(cfg, reqs, i + 1, j) >= Cap(cfg)
  {
    TrackedRun(cfg, reqs, i, j);
    RunKeepsInv(cfg, reqs[..j]);
    TrackedDecides(cfg, Run(cfg, [], reqs[..j]), Item(KeyOf(reqs[i]), reqs[i].timestamp.ms),
                   Accepted(cfg, reqs, i + 1, j), reqs[j]);
  }

  /** The first later acceptance of the key of `i`, no later than `k`. */
  lemma {:induction false} FirstAgain(cfg: Config, reqs: seq<Request>, i: nat, k: nat) returns (f: nat)
    requires i < k < |reqs| && KeyOf(reqs[k]) == KeyOf(reqs[i])
    requires VerdictAt(cfg, reqs, i) == Accept && VerdictAt(cfg, reqs, k) == Accept
    ensures i < f <= k && KeyOf(reqs[f]) == KeyOf(reqs[i]) && VerdictAt(cfg, reqs, f) == Accept
    ensures LastAcceptance(cfg, reqs, i, f)
    decreases k
  {
    if g :| i < g < k && KeyOf(reqs[g]) == KeyOf(reqs[i]) && VerdictAt(cfg, reqs, g) == Accept {
      f := FirstAgain(cfg, reqs, i, g);
    } else {
      f := k;
    }
  }

  lemma {:induction false} AcceptedSplit(cfg: Config, reqs: seq<Request>, a: nat, b: nat, c: nat)
    requires a <= b <= c <= |reqs|
    ensures Accepted(cfg, reqs, a, c) == Accepted(cfg, reqs, a, b) + Accepted(cfg, reqs, b, c)
    decreases c - b
  {
    if b < c {
      AcceptedSplit(cfg, reqs, a, b, c - 1);
    }
  }

  /**
   * No double acceptance. If one packet (same node, timestamp and nonce) is accepted twice, at least
   * `maxEntries` other requests were accepted strictly between, however the timestamps are ordered
   * and wherever the purge stops.
   */
  lemma NoDoubleAcceptance(cfg: Config, reqs: seq<Request>, i: nat, j: nat)
    requires Clocked(reqs) && i < j < |reqs|
    requires reqs[i].nodeId == reqs[j].nodeId && reqs[i].nonce == reqs[j].nonce
    requires reqs[i].timestamp == reqs[j].timestamp
    requires VerdictAt(cfg, reqs, i) == Accept && VerdictAt(cfg, reqs, j) == Accept
    ensures Accepted(cfg, reqs, i + 1, j) >= Cap(cfg) >= cfg.maxEntries
  {
    var f := FirstAgain(cfg, reqs, i, j);
    AcceptedIsFresh(cfg, reqs, i);
    AcceptedIsFresh(cfg, reqs, f);
    AcceptedIsFresh(cfg, reqs, j);
    ReplayIff(cfg, reqs, i, f);
    AcceptedSplit(cfg, reqs, i + 1, f, j);
  }

  lemma AcceptedIsFresh(cfg: Config, reqs: seq<Request>, i: nat)
    requires i < |reqs| && VerdictAt(cfg, reqs, i) == Accept
    ensures Fresh(cfg, reqs[i])
  {}

  /**
   * So "already seen, hence refused" fails once the cache has turned over: with room for one entry,
   * a packet is accepted, another one is, and the first is accepted again.
   */
  lemma ReplayAfterEviction(a: bytes, b: bytes, m: bytes, n: bytes)
    requires m != n
    ensures var cfg := Config(REPLAY_WINDOW_MS, 1);
            var first, other := Request(a, Finite(0), m, 0), Request(b, Finite(0), n, 0);
            VerdictAt(cfg, [first, other, first], 0) == Accept
            && VerdictAt(cfg, [first, other, first], 1) == Accept
            && VerdictAt(cfg, [first, other, first], 2) == Accept
  {
    var cfg := Config(REPLAY_WINDOW_MS, 1);
    var first, other := Request(a, Finite(0), m, 0), Request(b, Finite(0), n, 0);
    var reqs := [first, other, first];
    KeyInjective(a, m, b, n);
    assert reqs[..0] == [] && reqs[..1] == [first] && reqs[..2] == [first, other];
    assert [first][..0] == [] && [first, other][..1] == [first];
    assert Run(cfg, [], []) == [];
    assert Run(cfg, [], [first]) == [Item(KeyOf(first), 0)];
    assert Run(cfg, [], [first, other]) == [Item(KeyOf(other), 0)];
  }

  // ---- First acceptances ----

  /** What is accepted is stamped at most the window before or after the time of the check. */
  lemma AcceptedInWindow(cfg: Config, reqs: seq<Request>, i: nat)
    requires i < |reqs| && VerdictAt(cfg, reqs, i) == Accept
    ensures reqs[i].timestamp.Finite?
    ensures reqs[i].now - cfg.windowMs <= reqs[i].timestamp.ms <= reqs[i].now + cfg.windowMs
  {}

  /** Exactly a timestamp that is no number, or outside that window, is refused as such, and leaves the cache alone. */
  lemma OutOfWindowExactly(cfg: Config, seen: seq<Item>, r: Request)
    ensures Check(cfg, seen, r).1 == Reject(OutOfWindow)
            <==> r.timestamp.NotFinite? || r.timestamp.ms < r.now - cfg.windowMs || r.timestamp.ms > r.now + cfg.windowMs
    ensures Check(cfg, seen, r).1 == Reject(OutOfWindow) ==> Check(cfg, seen, r).0 == seen
  {}

  /** What one check may leave in the cache: what was there, and the request it accepted. */
  lemma CheckAddsRequest(cfg: Config, seen: seq<Item>, r: Request, x: Item)
    requires x in Check(cfg, seen, r).0
    ensures x in seen || (Check(cfg, seen, r).1 == Accept && x.key == KeyOf(r))
  {
    PurgeIsSuffix(cfg, seen, r.now);
  }

  /** Every entry of the cache is of an accepted request. */
  lemma {:induction false} EntryAccepted(cfg: Config, reqs: seq<Request>, n: nat, x: Item) returns (j: nat)
    requires n <= |reqs| && x in Run(cfg, [], reqs[..n])
    ensures j < n && VerdictAt(cfg, reqs, j) == Accept && KeyOf(reqs[j]) == x.key
  {
    RunSnoc(cfg, reqs, n);
    CheckAddsRequest(cfg, Run(cfg, [], reqs[..n - 1]), reqs[n - 1], x);
    if x in Run(cfg, [], reqs[..n - 1]) {
      j := EntryAccepted(cfg, reqs, n - 1, x);
    } else {
      j := n - 1;
    }
  }

  /**
   * First acceptance. A request whose node and nonce were not accepted before is accepted if and only if its
   * timestamp is a number at most the window before or after the time of the check.
   */
  lemma FirstAcceptedIff(cfg: Config, reqs: seq<Request>, i: nat)
    requires i < |reqs|
    requires forall j :: 0 <= j < i && reqs[j].nodeId == reqs[i].nodeId && reqs[j].nonce == reqs[i].nonce ==>
               VerdictAt(cfg, reqs, j) != Accept
    ensures VerdictAt(cfg, reqs, i) == Accept
            <==> reqs[i].timestamp.Finite?
                 && reqs[i].now - cfg.windowMs <= reqs[i].timestamp.ms <= reqs[i].now + cfg.windowMs
  {
    var seen := Run(cfg, [], reqs[..i]);
    var s := Purge(cfg, seen, reqs[i].now);
    PurgeIsSuffix(cfg, seen, reqs[i].now);
    if Has(s, KeyOf(reqs[i])) {
      var m :| 0 <= m < |s| && s[m].key == KeyOf(reqs[i]);
      assert s[m] in seen;
      var j := EntryAccepted(cfg, reqs, i, s[m]);
      KeyInjective(reqs[j].nodeId, reqs[j].nonce, reqs[i].nodeId, reqs[i].nonce);
    }
  }

  // ---- What the purge leaves ----

  predicate Expired(cfg: Config, x: Item, now: int) {
    now - x.ts > cfg.windowMs
  }

  ghost predicate AllValid(cfg: Config, seen: seq<Item>, now: int) {
    forall i :: 0 <= i < |seen| ==> !Expired(cfg, seen[i], now)
  }

  /** No expired entry stands behind a valid one. */
  ghost predicate ExpiredFirst(cfg: Config, seen: seq<Item>, now: int) {
    forall i, j :: 0 <= i < j < |seen| && Expired(cfg, seen[j], now) ==> Expired(cfg, seen[i], now)
  }

  /** A purge leaves valid entries only, if and only if the expired ones were all at the front. */
  lemma {:induction false} PurgeCompleteIff(cfg: Config, seen: seq<Item>, now: int)
    ensures AllValid(cfg, Purge(cfg, seen, now), now) <==> ExpiredFirst(cfg, seen, now)
    decreases |seen|
  {
    if seen != [] && Expired(cfg, seen[0], now) {
      var rest := seen[1..];
      PurgeCompleteIff(cfg, rest, now);
      assert forall i :: 0 <= i < |rest| ==> rest[i] == seen[i + 1];
      if ExpiredFirst(cfg, rest, now) {
        forall i, j | 0 <= i < j < |seen| && Expired(cfg, seen[j], now)
          ensures Expired(cfg, seen[i], now)
        {
          if i > 0 {
            assert Expired(cfg, rest[j - 1], now) && rest[i - 1] == seen[i];
          }
        }
      }
    } else if seen != [] && ExpiredFirst(cfg, seen, now) {
      assert forall j :: 0 < j < |seen| ==> !Expired(cfg, seen[j], now);
    }
  }

  /** The accepted requests of a run carry timestamps that never go back. */
  ghost predicate InOrder(cfg: Config, reqs: seq<Request>) {
    forall i, j :: 0 <= i < j < |reqs| && VerdictAt(cfg, reqs, i) == Accept && VerdictAt(cfg, reqs, j) == Accept ==>
      reqs[i].timestamp.Finite? && reqs[j].timestamp.Finite? && reqs[i].timestamp.ms <= reqs[j].timestamp.ms
  }

  /** Some accepted request among the first `n` carried this timestamp. */
  ghost predicate Sent(cfg: Config, reqs: seq<Request>, n: nat, ts: int)
    requires n <= |reqs|
  {
    exists i :: 0 <= i < n && VerdictAt(cfg, reqs, i) == Accept && reqs[i].timestamp == Finite(ts)
  }

  ghost predicate Rising(seen: seq<Item>) {
    forall i, j :: 0 <= i < j < |seen| ==> seen[i].ts <= seen[j].ts
  }

  /** A check keeps a slice of the entries, in order, and adds at most the request, at the end. */
  lemma SuffixIsSlice(seen: seq<Item>, k: nat)
    requires k <= |seen|
    ensures seen[k..] == seen[k..k + (|seen| - k)]
    ensures k < |seen| ==> seen[k..][1..] == seen[k + 1..k + 1 + (|seen| - k - 1)]
  {}

  lemma CheckKeepsOrder(cfg: Config, seen: seq<Item>, r: Request) returns (k: nat, n: nat)
    ensures k + n <= |seen|
    ensures var (s, v) := Check(cfg, seen, r);
            s == seen[k..k + n] + (if v == Accept then [Item(KeyOf(r), r.timestamp.ms)] else [])
  {
    k, n := 0, |seen|;
    if Fresh(cfg, r) {
      var p := Purge(cfg, seen, r.now);
      var e := if Has(p, KeyOf(r)) then p else Evict(cfg, p);
      PurgeIsSuffix(cfg, seen, r.now);
      SuffixIsSlice(seen, |seen| - |p|);
      k, n := |seen| - |e|, |e|;
    }
  }

  /** The timestamps of the cache rise and were all sent. */
  ghost predicate Ordered(cfg: Config, reqs: seq<Request>, n: nat, seen: seq<Item>)
    requires n <= |reqs|
  {
    Rising(seen) && forall i :: 0 <= i < |seen| ==> Sent(cfg, reqs, n, seen[i].ts)
  }

  lemma RisingSlice(seen: seq<Item>, k: nat, m: nat)
    requires k + m <= |seen| && Rising(seen)
    ensures Rising(seen[k..k + m])
  {}

  lemma SentLater(cfg: Config, reqs: seq<Request>, n: nat, ts: int)
    requires n < |reqs| && Sent(cfg, reqs, n, ts)
    ensures Sent(cfg, reqs, n + 1, ts)
  {}

  lemma OrderedLater(cfg: Config, reqs: seq<Request>, n: nat, seen: seq<Item>, k: nat, m: nat)
    requires n < |reqs| && k + m <= |seen| && Ordered(cfg, reqs, n, seen)
    ensures Ordered(cfg, reqs, n + 1, seen[k..k + m])
  {
    var kept := seen[k..k + m];
    RisingSlice(seen, k, m);
    forall i | 0 <= i < |kept|
      ensures Sent(cfg, reqs, n + 1, kept[i].ts)
    {
      assert kept[i] == seen[k + i];
      SentLater(cfg, reqs, n, seen[k + i].ts);
    }
  }

  lemma NoneLater(cfg: Config, reqs: seq<Request>, n: nat, ts: int, last: int)
    requires 0 < n <= |reqs| && InOrder(cfg, reqs) && Sent(cfg, reqs, n, ts)
    requires VerdictAt(cfg, reqs, n - 1) == Accept && reqs[n - 1].timestamp == Finite(last)
    ensures ts <= last
  {
    var a :| 0 <= a < n && VerdictAt(cfg, reqs, a) == Accept && reqs[a].timestamp == Finite(ts);
  }

  lemma RisingAdd(seen: seq<Item>, x: Item)
    requires Rising(seen) && forall i :: 0 <= i < |seen| ==> seen[i].ts <= x.ts
    ensures Rising(seen + [x])
  {}

  lemma OrderedAdd(cfg: Config, reqs: seq<Request>, n: nat, seen: seq<Item>, x: Item)
    requires 0 < n <= |reqs| && InOrder(cfg, reqs) && Ordered(cfg, reqs, n, seen)
    requires VerdictAt(cfg, reqs, n - 1) == Accept && reqs[n - 1].timestamp == Finite(x.ts)
    ensures Ordered(cfg, reqs, n, seen + [x])
  {
    forall i | 0 <= i < |seen|
      ensures seen[i].ts <= x.ts
    {
      NoneLater(cfg, reqs, n, seen[i].ts, x.ts);
    }
    assert Sent(cfg, reqs, n, x.ts);
    RisingAdd(seen, x);
  }

  lemma {:induction false} CacheInOrder(cfg: Config, reqs: seq<Request>, n: nat)
    requires n <= |reqs| && InOrder(cfg, reqs)
    ensures Ordered(cfg, reqs, n, Run(cfg, [], reqs[..n]))
  {
    if n > 0 {
      var before, r := Run(cfg, [], reqs[..n - 1]), reqs[n - 1];
      CacheInOrder(cfg, reqs, n - 1);
      RunSnoc(cfg, reqs, n);
      var k, m := CheckKeepsOrder(cfg, before, r);
      OrderedLater(cfg, reqs, n - 1, before, k, m);
      if VerdictAt(cfg, reqs, n - 1) == Accept {
        AcceptedIsFresh(cfg, reqs, n - 1);
        OrderedAdd(cfg, reqs, n, before[k..k + m], Item(KeyOf(r), r.timestamp.ms));
      } else {
        assert before[k..k + m] + [] == before[k..k + m];
      }
    }
  }

  /** So the purge is complete at any time after requests accepted in the order of their timestamps. */
  lemma InOrderPurges(cfg: Config, reqs: seq<Request>, now: int)
    requires InOrder(cfg, reqs)
    ensures AllValid(cfg, Purge(cfg, Run(cfg, [], reqs), now), now)
  {
    assert reqs[..|reqs|] == reqs;
    CacheInOrder(cfg, reqs, |reqs|);
    PurgeCompleteIff(cfg, Run(cfg, [], reqs), now);
  }

  /**
   * Out of order it need not be: a packet stamped 30 seconds ahead, then one stamped 30 seconds behind,
   * are both accepted; 30 seconds later the purge stops at the first and leaves the second, expired.
   */
  lemma PurgeStopsEarly(a: bytes, b: bytes, m: bytes, n: bytes)
    requires m != n
    ensures var cfg := Config(REPLAY_WINDOW_MS, REPLAY_CACHE_MAX);
            var reqs := [Request(a, Finite(60000), m, 30000), Request(b, Finite(0), n, 30000)];
            var seen := Run(cfg, [], reqs);
            && Clocked(reqs) && VerdictAt(cfg, reqs, 0) == Accept && VerdictAt(cfg, reqs, 1) == Accept
            && Purge(cfg, seen, 60000) == seen && |seen| == 2 && Expired(cfg, seen[1], 60000)
  {
    var cfg := Config(REPLAY_WINDOW_MS, REPLAY_CACHE_MAX);
    var first, second := Request(a, Finite(60000), m, 30000), Request(b, Finite(0), n, 30000);
    var reqs := [first, second];
    KeyInjective(a, m, b, n);
    assert reqs[..0] == [] && reqs[..1] == [first] && [first][..0] == [];
    assert Run(cfg, [], []) == [];
    assert Run(cfg, [], [first]) == [Item(KeyOf(first), 60000)];
    assert Run(cfg, [], reqs) == [Item(KeyOf(first), 60000), Item(KeyOf(second), 0)];
  }

  class ReplayGuard {
    const windowMs: nat
    const maxEntries: int
    var seen: seq<Item>

    constructor (windowMs: nat, maxEntries: int)
      ensures this.windowMs == windowMs && this.maxEntries == maxEntries && seen == []
    {
      this.windowMs, this.maxEntries, seen := windowMs, maxEntries, [];
    }

    function Cfg(): Config {
      Config(windowMs, maxEntries)
    }

    method PurgeExpired(now: int)
      modifies this
      ensures seen == Purge(Cfg(), old(seen), now)
    {
      while seen != [] && now - seen[0].ts > windowMs
        invariant Purge(Cfg(), seen, now) == Purge(Cfg(), old(seen), now)
        decreases |seen|
      {
        seen := seen[1..];
      }
    }

    method CheckRequest(r: Request) returns (v: Verdict)
      modifies this
      ensures (seen, v) == Check(Cfg(), old(seen), r)
    {
      if r.timestamp.NotFinite? || Abs(r.now - r.timestamp.ms) > windowMs {
        return Reject(OutOfWindow);
      }
      PurgeExpired(r.now);
      var key := KeyOf(r);
      if Has(seen, key) {
        return Reject(Seen);
      }
      if |seen| >= maxEntries && seen != [] {
        seen := seen[1..];
      }
      seen := seen + [Item(key, r.timestamp.ms)];
      return Accept;
    }
  }
}
