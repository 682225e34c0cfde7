/** The `data` handler of the packet server (src/network/tcpServer.js). */
module TcpServer {
  import opened Bytes
  import opened FixedWindow
  import opened Packet
  import opened StreamCodec
  import IpBlacklist
  import IpRateLimiter
  import Replay

  const MAX_PACKETS_PER_SECOND: nat := 50

  datatype Attack =
    | BufferOverflow | RateSocket | RateIp | HmacInvalid | SignatureInvalid | ReplayDetected | MalformedPacket

  datatype Settings = Settings(suite: Suite, ip: string, ipLimit: nat, ipWindow: nat, replay: Replay.Config)

  /** The counters and caches a packet passes through: per socket, per IP, and the shared replay cache. */
  datatype Gates = Gates(socket: Counter, counters: IpRateLimiter.Counters, seen: seq<Replay.Item>)

  datatype Outcome = Pass | Flag(attack: Attack)

  /** The body of the handler's loop for one packet read at `now`. */
  function Inspect(s: Settings, g: Gates, packet: bytes, now: int): (Gates, Outcome) {
    var socket := Bump(Some(g.socket), now, 1000);
    // The reset assigns a count of zero before the increment, as `Bump` does.
    var g1 := g.(socket := socket);
    if socket.count > MAX_PACKETS_PER_SECOND then (g1, Flag(RateSocket))
    else
      var (counters, ok) := IpRateLimiter.AllowStep(g.counters, s.ip, now, s.ipLimit, s.ipWindow);
      var g2 := g1.(counters := counters);
      if !ok then (g2, Flag(RateIp))
      else if !VerifyPacket(s.suite, packet) then (g2, Flag(HmacInvalid))
      else match ParsePacket(packet)
        case None => (g2, Flag(MalformedPacket))
        case Some(p) =>
          if !VerifySignature(s.suite, p) then (g2, Flag(SignatureInvalid))
          else match UnwrapPayload(p.payload)
            case None => (g2, Flag(MalformedPacket))
            case Some(e) =>
              var (seen, v) := Replay.Check(s.replay, g.seen, Replay.Request(p.nodeId, Replay.Finite(e.timestamp), e.nonce, now));
              (g2.(seen := seen), if v == Replay.Accept then Pass else Flag(ReplayDetected))
  }

  /** Which gate a packet fails at, first to last: its socket's rate, its address's, HMAC, signature, replay. */
  lemma GatesInOrder(s: Settings, g: Gates, packet: bytes, now: int)
    ensures var o := Inspect(s, g, packet, now).1;
            var slow := g.socket.count < 50 || now - g.socket.windowStart > 1000;
            var counted := Bump(IpRateLimiter.Get(g.counters, s.ip), now, s.ipWindow).count <= s.ipLimit;
            && (o == Flag(RateSocket) <==> !slow)
            && (o == Flag(RateIp) <==> slow && !counted)
            && (o == Flag(HmacInvalid) <==> slow && counted && !VerifyPacket(s.suite, packet))
            && (slow && counted && VerifyPacket(s.suite, packet) ==>
                  var p := ParsePacket(packet);
                  && (p.None? ==> o == Flag(MalformedPacket))
                  && (p.Some? ==>
                        && (o == Flag(SignatureInvalid) <==> !VerifySignature(s.suite, p.value))
                        && (VerifySignature(s.suite, p.value) ==>
                              && (o == Flag(MalformedPacket) <==> |p.value.payload| < 24)
                              && (|p.value.payload| >= 24 ==> o == Pass || o == Flag(ReplayDetected)))))
  {}

  datatype Served = Served(gates: Gates, passed: nat, flag: Option<Attack>)

  /** The loop: packets are inspected in order until one is flagged. */
  function InspectAll(s: Settings, g: Gates, packets: seq<bytes>, clock: seq<int>): (r: Served)
    requires |clock| >= |packets|
    ensures r.passed <= |packets|
    ensures r.flag.None? <==> r.passed == |packets|
    decreases |packets|
  {
    if packets == [] then Served(g, 0, None)
    else
      var (g', o) := Inspect(s, g, packets[0], clock[0]);
      if o.Flag? then Served(g', 0, Some(o.attack))
      else
        var r := InspectAll(s, g', packets[1..], clock[1..]);
        r.(passed := r.passed + 1)
  }

  /** One socket: its buffer and its gates; a flagged socket is destroyed. */
  datatype Socket = Socket(buffer: bytes, gates: Gates, passed: nat, flag: Option<Attack>)

  /** A chunk and the times at which its packets are read. */
  datatype Chunk = Chunk(data: bytes, clock: seq<int>)

  ghost predicate Timed(s: Socket, c: Chunk) {
    |c.clock| >= |Decode(Packets, s.buffer + c.data).units|
  }

  /** One `data` event on a socket that is still open. */
  function OnData(s: Settings, k: Socket, c: Chunk): Socket
    requires Timed(k, c)
  {
    var buffer := k.buffer + c.data;
    var d := Decode(Packets, buffer);
    if |buffer| > MAX_BUFFER_SIZE then k.(buffer := buffer, flag := Some(BufferOverflow))
    else if d.failed then k.(buffer := buffer, flag := Some(MalformedPacket))
    else
      var r := InspectAll(s, k.gates, d.units, c.clock);
      Socket(if r.flag.None? then d.rest else buffer, r.gates, k.passed + r.passed, r.flag)
  }

  /** Why a chunk is flagged before its packets are read: over 5 MiB buffered, or a header that is refused. */
  lemma ChunkFlags(s: Settings, k: Socket, c: Chunk)
    requires k.flag.None? && Timed(k, c)
    ensures var k', size := OnData(s, k, c), |k.buffer| + |c.data|;
            && (k'.flag == Some(BufferOverflow) <==> size > 5 * 1024 * 1024)
            && (size <= 5 * 1024 * 1024 && Decode(Packets, k.buffer + c.data).failed ==> k'.flag == Some(MalformedPacket))
            && (size > 5 * 1024 * 1024 || Decode(Packets, k.buffer + c.data).failed ==> k'.gates == k.gates && k'.passed == k.passed)
            && (k'.flag.Some? ==> k'.buffer == k.buffer + c.data)
  {
    if |k.buffer| + |c.data| <= 5 * 1024 * 1024 && !Decode(Packets, k.buffer + c.data).failed {
      NoOverflowFlag(s, k.gates, Decode(Packets, k.buffer + c.data).units, c.clock);
    }
  }

  /** The invariant of an open socket: its buffer holds at most an incomplete packet. */
  ghost predicate Open(k: Socket) {
    k.flag.None? && Next(Packets, k.buffer) == Need
  }

  /**
   * An open socket stays open or is flagged; while it is open its buffer never exceeds
   * `MAX_LEFTOVER`, and a chunk of at most `MAX_BUFFER_SIZE - MAX_LEFTOVER` bytes is never taken for
   * an overflow.
   */
  lemma OnDataKeeps(s: Settings, k: Socket, c: Chunk)
    requires Open(k) && Timed(k, c)
    ensures OnData(s, k, c).flag.None? ==> Open(OnData(s, k, c))
    ensures |k.buffer| <= MAX_LEFTOVER
    ensures |c.data| <= MAX_BUFFER_SIZE - MAX_LEFTOVER ==> OnData(s, k, c).flag != Some(BufferOverflow)
  {
    DecodeStops(Packets, k.buffer + c.data);
    NeedBound(k.buffer);
    if |c.data| <= MAX_BUFFER_SIZE - MAX_LEFTOVER && !Decode(Packets, k.buffer + c.data).failed {
      NoOverflowFlag(s, k.gates, Decode(Packets, k.buffer + c.data).units, c.clock);
    }
  }

  lemma {:induction false} NoOverflowFlag(s: Settings, g: Gates, packets: seq<bytes>, clock: seq<int>)
    requires |clock| >= |packets|
    ensures InspectAll(s, g, packets, clock).flag != Some(BufferOverflow)
    decreases |packets|
  {
    if packets != [] && Inspect(s, g, packets[0], clock[0]).1.Pass? {
      NoOverflowFlag(s, Inspect(s, g, packets[0], clock[0]).0, packets[1..], clock[1..]);
    }
  }

  lemma {:induction false} InspectSplit(s: Settings, g: Gates, a: seq<bytes>, b: seq<bytes>, ta: seq<int>, tb: seq<int>)
    requires |ta| == |a| && |tb| >= |b|
    requires InspectAll(s, g, a, ta).flag.None?
    ensures var ra := InspectAll(s, g, a, ta);
            var rb := InspectAll(s, ra.gates, b, tb);
            InspectAll(s, g, a + b, ta + tb) == rb.(passed := ra.passed + rb.passed)
    decreases |a|
  {
    if a == [] {
      assert a + b == b && ta + tb == tb;
    } else {
      CutFront(a, b, 1);
      CutFront(ta, tb, 1);
      InspectSplit(s, Inspect(s, g, a[0], ta[0]).0, a[1..], b, ta[1..], tb);
    }
  }

  /** The counters and the cache that all sockets share. */
  datatype Shared = Shared(counters: IpRateLimiter.Counters, seen: seq<Replay.Item>)

  /** The socket after other sockets and the cleanup timer have changed what is shared. */
  function Meanwhile(k: Socket, sh: Shared): Socket {
    k.(gates := k.gates.(counters := sh.counters, seen := sh.seen))
  }

  /** A chunk, the state of what is shared when it arrives, and the times at which its packets are read. */
  datatype Arrival = Arrival(shared: Shared, chunk: Chunk)

  /** A whole connection on which no chunk was flagged, ending in `k`. */
  ghost predicate Session(s: Settings, k0: Socket, arrivals: seq<Arrival>, k: Socket)
    decreases |arrivals|
  {
    if arrivals == [] then k == k0
    else
      var k1 := Meanwhile(k0, arrivals[0].shared);
      && Timed(k1, arrivals[0].chunk)
      && OnData(s, k1, arrivals[0].chunk).flag.None?
      && Session(s, OnData(s, k1, arrivals[0].chunk), arrivals[1..], k)
  }

  /** The packets the handler read, and when, in order. */
  ghost function Read(s: Settings, k0: Socket, arrivals: seq<Arrival>, k: Socket): (seq<bytes>, seq<int>)
    requires Session(s, k0, arrivals, k)
    decreases |arrivals|
  {
    if arrivals == [] then ([], [])
    else
      var k1, c := Meanwhile(k0, arrivals[0].shared), arrivals[0].chunk;
      var units := Decode(Packets, k1.buffer + c.data).units;
      var (packets, times) := Read(s, OnData(s, k1, c), arrivals[1..], k);
      (units + packets, c.clock[..|units|] + times)
  }

  function Stream(arrivals: seq<Arrival>): bytes {
    if arrivals == [] then [] else arrivals[0].chunk.data + Stream(arrivals[1..])
  }

  lemma InspectPrefixClock(s: Settings, g: Gates, packets: seq<bytes>, clock: seq<int>)
    requires |clock| >= |packets|
    ensures InspectAll(s, g, packets, clock) == InspectAll(s, g, packets, clock[..|packets|])
    decreases |packets|
  {
    if packets != [] {
      var c := clock[..|packets|];
      assert c[1..] == clock[1..][..|packets[1..]|];
      InspectPrefixClock(s, Inspect(s, g, packets[0], clock[0]).0, packets[1..], clock[1..]);
    }
  }

  /** What a chunk that is not flagged does: all its packets pass, and the tail stays. */
  lemma ChunkStep(s: Settings, k0: Socket, c: Chunk)
    requires Open(k0) && Timed(k0, c) && OnData(s, k0, c).flag.None?
    ensures var d, k1 := Decode(Packets, k0.buffer + c.data), OnData(s, k0, c);
            && !d.failed && k1.buffer == d.rest && Open(k1) && k1.passed == k0.passed + |d.units|
            && InspectAll(s, k0.gates, d.units, c.clock[..|d.units|]) == Served(k1.gates, |d.units|, None)
  {
    OnDataKeeps(s, k0, c);
    InspectPrefixClock(s, k0.gates, Decode(Packets, k0.buffer + c.data).units, c.clock);
  }

  lemma OneCounts(s: Settings, g: Gates, packet: bytes, now: int)
    ensures var (g', o) := Inspect(s, g, packet, now);
            g'.socket == Bump(Some(g.socket), now, 1000) && (o.Pass? ==> g'.socket.count <= MAX_PACKETS_PER_SECOND)
  {}

  /** The socket's own counter counts every packet read, whatever happens to what is shared. */
  lemma {:induction false} SocketCounts(s: Settings, g: Gates, packets: seq<bytes>, clock: seq<int>)
    requires |clock| == |packets| && InspectAll(s, g, packets, clock).flag.None?
    ensures FixedWindow.After(Some(g.socket), clock, 1000) == Some(InspectAll(s, g, packets, clock).gates.socket)
    ensures forall i :: 0 <= i < |packets| ==>
              FixedWindow.Run(Some(g.socket), clock, MAX_PACKETS_PER_SECOND, 1000)[i]
    decreases |packets|
  {
    if packets != [] {
      OneCounts(s, g, packets[0], clock[0]);
      SocketCounts(s, Inspect(s, g, packets[0], clock[0]).0, packets[1..], clock[1..]);
    }
  }

  /**
   * Fragmentation is invisible. Whatever other sockets and the cleanup timer do to the shared counters and
   * cache between chunks, a connection that was never flagged read exactly the packets of its whole byte
   * stream, in order, each once, passed every one, and keeps exactly the stream's incomplete tail.
   */
  lemma {:induction false} SessionIsOnePass(s: Settings, k0: Socket, arrivals: seq<Arrival>, k: Socket)
    requires Open(k0) && Session(s, k0, arrivals, k)
    ensures var d := Decode(Packets, k0.buffer + Stream(arrivals));
            && !d.failed && k.buffer == d.rest && Open(k)
            && Read(s, k0, arrivals, k).0 == d.units && |Read(s, k0, arrivals, k).1| == |d.units|
            && k.passed == k0.passed + |d.units|
    decreases |arrivals|
  {
    if arrivals == [] {
      assert k0.buffer + Stream(arrivals) == k0.buffer;
    } else {
      var k1, c, rest := Meanwhile(k0, arrivals[0].shared), arrivals[0].chunk, Stream(arrivals[1..]);
      Assoc(k0.buffer, c.data, rest);
      ChunkStep(s, k1, c);
      SessionIsOnePass(s, OnData(s, k1, c), arrivals[1..], k);
      DecodeCut(Packets, k0.buffer + c.data, rest);
    }
  }

  /**
   * The socket's rate limit, over the whole connection: its counter is the fixed-window counter of all the
   * packets read, and that counter let every one of them through.
   */
  lemma {:induction false} SessionCounts(s: Settings, k0: Socket, arrivals: seq<Arrival>, k: Socket)
    requires Open(k0) && Session(s, k0, arrivals, k)
    ensures var times := Read(s, k0, arrivals, k).1;
            && FixedWindow.After(Some(k0.gates.socket), times, 1000) == Some(k.gates.socket)
            && forall i :: 0 <= i < |times| ==>
                 FixedWindow.Run(Some(k0.gates.socket), times, MAX_PACKETS_PER_SECOND, 1000)[i]
    decreases |arrivals|
  {
    if arrivals != [] {
      var k1, c := Meanwhile(k0, arrivals[0].shared), arrivals[0].chunk;
      var units := Decode(Packets, k1.buffer + c.data).units;
      var k2 := OnData(s, k1, c);
      var times := c.clock[..|units|];
      ChunkStep(s, k1, c);
      SocketCounts(s, k1.gates, units, times);
      SessionCounts(s, k2, arrivals[1..], k);
      RunSplit(Some(k0.gates.socket), times, Read(s, k2, arrivals[1..], k).1, MAX_PACKETS_PER_SECOND, 1000);
      AfterSplit(Some(k0.gates.socket), times, Read(s, k2, arrivals[1..], k).1, 1000);
    }
  }

  /** Nothing but this connection changed what is shared. */
  ghost predicate Alone(s: Settings, k0: Socket, arrivals: seq<Arrival>, k: Socket)
    requires Session(s, k0, arrivals, k)
    decreases |arrivals|
  {
    arrivals != [] ==>
      && Meanwhile(k0, arrivals[0].shared) == k0
      && Alone(s, OnData(s, k0, arrivals[0].chunk), arrivals[1..], k)
  }

  /** Then every gate answered as if the stream had come in a single chunk. */
  lemma {:induction false} AloneIsOneChunk(s: Settings, k0: Socket, arrivals: seq<Arrival>, k: Socket)
    requires Open(k0) && Session(s, k0, arrivals, k) && Alone(s, k0, arrivals, k)
    ensures var (packets, times) := Read(s, k0, arrivals, k);
            |times| == |packets| && InspectAll(s, k0.gates, packets, times) == Served(k.gates, |packets|, None)
    decreases |arrivals|
  {
    if arrivals != [] {
      var c := arrivals[0].chunk;
      var units := Decode(Packets, k0.buffer + c.data).units;
      var k1 := OnData(s, k0, c);
      var (packets, times) := Read(s, k1, arrivals[1..], k);
      ChunkStep(s, k0, c);
      AloneIsOneChunk(s, k1, arrivals[1..], k);
      InspectSplit(s, k0.gates, units, packets, c.clock[..|units|], times);
    }
  }

  lemma DropTwice<T>(s: seq<T>, i: nat)
    requires i < |s|
    ensures s[i..][0] == s[i] && s[i..][1..] == s[i + 1..]
  {}

  /** With the first `i` packets passed and the gates at `g`, the loop still ends as it would have. */
  ghost predicate Ahead(s: Settings, g0: Gates, packets: seq<bytes>, clock: seq<int>, i: nat, g: Gates)
    requires i <= |packets| <= |clock|
  {
    var r := InspectAll(s, g, packets[i..], clock[i..]);
    InspectAll(s, g0, packets, clock) == r.(passed := r.passed + i)
  }

  lemma AheadStep(s: Settings, g0: Gates, packets: seq<bytes>, clock: seq<int>, i: nat, g: Gates)
    requires i < |packets| <= |clock| && Ahead(s, g0, packets, clock, i, g)
    ensures var (g', o) := Inspect(s, g, packets[i], clock[i]);
            && (o.Pass? ==> Ahead(s, g0, packets, clock, i + 1, g'))
            && (o.Flag? ==> InspectAll(s, g0, packets, clock) == Served(g', i, Some(o.attack)))
  {
    DropTwice(packets, i);
    DropTwice(clock, i);
  }

  /** The blacklist after one strike against an address. */
  function OneStrike(cfg: IpBlacklist.Config, t: IpBlacklist.Table, ip: string, now: int): IpBlacklist.Table {
    IpBlacklist.Put(t, ip, IpBlacklist.OnStrike(cfg, IpBlacklist.EntryOf(t, ip), now).0)
  }

  /** A strike against one address leaves what is known of the others alone. */
  lemma StrikeOthers(cfg: IpBlacklist.Config, t: IpBlacklist.Table, ip: string, now: int, other: string)
    requires other != ip
    ensures IpBlacklist.EntryOf(OneStrike(cfg, t, ip, now), other) == IpBlacklist.EntryOf(t, other)
  {}

  /** One of some attacks by an address, on whatever sockets, leaves it banned. */
  ghost predicate GetsBanned(cfg: IpBlacklist.Config, t: IpBlacklist.Table, ip: string, attacks: seq<int>)
    decreases |attacks|
  {
    attacks != [] &&
      var t' := OneStrike(cfg, t, ip, attacks[0]);
      IpBlacklist.Banned(IpBlacklist.EntryOf(t', ip), attacks[0]) || GetsBanned(cfg, t', ip, attacks[1..])
  }

  function StrikesAt(attacks: seq<int>): seq<IpBlacklist.Op> {
    if attacks == [] then [] else [IpBlacklist.Strike(attacks[0])] + StrikesAt(attacks[1..])
  }

  lemma {:induction false} StrikesAtAre(attacks: seq<int>, since: int, until: int)
    requires Sorted(attacks) && forall i :: 0 <= i < |attacks| ==> since <= attacks[i] <= until
    ensures IpBlacklist.StrikeCount(StrikesAt(attacks)) == |attacks| == |StrikesAt(attacks)|
    ensures IpBlacklist.Clocked(StrikesAt(attacks), since) && IpBlacklist.NoExplicitBan(StrikesAt(attacks))
    ensures forall i :: 0 <= i < |StrikesAt(attacks)| ==> StrikesAt(attacks)[i].now <= until
    decreases |attacks|
  {
    if attacks != [] {
      StrikesAtAre(attacks[1..], attacks[0], until);
      assert StrikesAt(attacks)[1..] == StrikesAt(attacks[1..]);
    }
  }

  /** If no attack leads to a ban, no strike was answered by one. */
  lemma {:induction false} NeverBannedWithout(cfg: IpBlacklist.Config, t: IpBlacklist.Table, ip: string, attacks: seq<int>)
    requires !GetsBanned(cfg, t, ip, attacks)
    ensures IpBlacklist.NeverBanned(cfg, IpBlacklist.EntryOf(t, ip), StrikesAt(attacks))
    decreases |attacks|
  {
    if attacks != [] {
      var e, ops := IpBlacklist.EntryOf(t, ip), StrikesAt(attacks);
      var t' := OneStrike(cfg, t, ip, attacks[0]);
      NeverBannedWithout(cfg, t', ip, attacks[1..]);
      assert ops[1..] == StrikesAt(attacks[1..]);
      IpBlacklist.StrikeAnswers(cfg, e, attacks[0]);
      var e' := IpBlacklist.Step(cfg, e, ops[0]).0;
      assert IpBlacklist.EntryOf(t', ip) == e';
      forall i | 0 <= i < |ops| && ops[i].Strike?
        ensures !IpBlacklist.SaysBanned(IpBlacklist.Run(cfg, e, ops)[i])
      {
        if i > 0 {
          assert IpBlacklist.Run(cfg, e, ops)[i] == IpBlacklist.Run(cfg, e', ops[1..])[i - 1];
        }
      }
    }
  }

  /**
   * Attacks add up to a ban. Whatever strikes an address has already, and on whatever sockets its attacks
   * come: more of them than `2 * threshold - 3` within one strike window get it banned.
   */
  lemma AttacksBan(cfg: IpBlacklist.Config, t: IpBlacklist.Table, ip: string, attacks: seq<int>)
    requires IpBlacklist.EntryInv(cfg, IpBlacklist.EntryOf(t, ip)) && Sorted(attacks)
    requires |attacks| > 2 * cfg.strikeThreshold - 3 && |attacks| > 0
    requires attacks[|attacks| - 1] - attacks[0] <= cfg.strikeWindowMs
    ensures GetsBanned(cfg, t, ip, attacks)
  {
    if !GetsBanned(cfg, t, ip, attacks) {
      var last := attacks[|attacks| - 1];
      StrikesAtAre(attacks, attacks[0], last);
      NeverBannedWithout(cfg, t, ip, attacks);
      IpBlacklist.TwoStrikeWindows(cfg, IpBlacklist.EntryOf(t, ip), StrikesAt(attacks), attacks[0], last);
    }
  }

  class Connection {
    const settings: Settings
    const limiter: IpRateLimiter.Limiter
    const guard: Replay.ReplayGuard
    const blacklist: IpBlacklist.Blacklist
    var buffer: bytes
    var packetCount: nat
    var rateWindowStart: int
    var passed: nat
    var flagged: Option<Attack>

    constructor (suite: Suite, ip: string, limiter: IpRateLimiter.Limiter, guard: Replay.ReplayGuard,
                 blacklist: IpBlacklist.Blacklist, now: int)
      ensures settings == Settings(suite, ip, limiter.limit, limiter.windowMs, guard.Cfg())
      ensures this.limiter == limiter && this.guard == guard && this.blacklist == blacklist
      ensures State() == Socket([], Gates(Counter(0, now), limiter.counters, guard.seen), 0, None)
    {
      settings := Settings(suite, ip, limiter.limit, limiter.windowMs, Replay.Config(guard.windowMs, guard.maxEntries));
      this.limiter, this.guard, this.blacklist := limiter, guard, blacklist;
      buffer, packetCount, rateWindowStart, passed, flagged := [], 0, now, 0, None;
    }

    ghost predicate Wired() {
      && settings.ipLimit == limiter.limit && settings.ipWindow == limiter.windowMs
      && settings.replay == guard.Cfg()
    }

    function State(): Socket
      reads this, limiter, guard
    {
      Socket(buffer, Gates(Counter(packetCount, rateWindowStart), limiter.counters, guard.seen), passed, flagged)
    }

    /** `flagAttack`: one strike against the address, and the socket is gone. */
    method FlagAttack(attack: Attack, now: int)
      modifies this`flagged, blacklist
      ensures flagged == Some(attack) && blacklist.State() == OneStrike(blacklist.cfg, old(blacklist.State()), settings.ip, now)
    {
      var banned, count := blacklist.Strike(settings.ip, now);
      flagged := Some(attack);
    }

    /** The loop body for one packet; `None` means it passed. */
    method InspectPacket(packet: bytes, now: int) returns (attack: Option<Attack>)
      requires Wired()
      modifies this`packetCount, this`rateWindowStart, limiter, guard
      ensures var (g, o) := Inspect(settings, old(State()).gates, packet, now);
              && State().gates == g
              && attack == if o.Pass? then None else Some(o.attack)
    {
      if now - rateWindowStart > 1000 {
        packetCount := 0;
        rateWindowStart := now;
      }
      packetCount := packetCount + 1;
      if packetCount > MAX_PACKETS_PER_SECOND {
        return Some(RateSocket);
      }
      var ok := limiter.Allow(settings.ip, now);
      if !ok {
        return Some(RateIp);
      }
      if !VerifyPacket(settings.suite, packet) {
        return Some(HmacInvalid);
      }
      var parsed := ParsePacket(packet);
      if parsed.None? {
        return Some(MalformedPacket);
      }
      if !VerifySignature(settings.suite, parsed.value) {
        return Some(SignatureInvalid);
      }
      var e := UnwrapPayload(parsed.value.payload);
      if e.None? {
        return Some(MalformedPacket);
      }
      var verdict := guard.CheckRequest(
        Replay.Request(parsed.value.nodeId, Replay.Finite(e.value.timestamp), e.value.nonce, now));
      return if verdict == Replay.Accept then None else Some(ReplayDetected);
    }

    /** The `data` event; `clock[i]` is the time at which the i-th packet of this event is read. */
    method Receive(data: bytes, clock: seq<int>, now: int)
      requires Wired() && flagged.None? && Timed(State(), Chunk(data, clock))
      modifies this, limiter, guard, blacklist
      ensures State() == OnData(settings, old(State()), Chunk(data, clock))
      ensures blacklist.State() == if flagged.None? then old(blacklist.State())
                                   else OneStrike(blacklist.cfg, old(blacklist.State()), settings.ip, now)
    {
      buffer := buffer + data;
      if |buffer| > MAX_BUFFER_SIZE {
        FlagAttack(BufferOverflow, now);
        return;
      }
      var result := ExtractPackets(buffer);
      if result.None? {
        FlagAttack(MalformedPacket, now);
        return;
      }
      var attack := InspectPackets(result.value.packets, clock);
      if attack.Some? {
        FlagAttack(attack.value, now);
        return;
      }
      buffer := result.value.remaining;
    }

    /** The loop body for packet `i`, where the loop started with the gates at `g0`. */
    method InspectNext(ghost g0: Gates, packets: seq<bytes>, clock: seq<int>, i: nat) returns (attack: Option<Attack>)
      requires Wired() && i < |packets| <= |clock| && Ahead(settings, g0, packets, clock, i, State().gates)
      modifies this`packetCount, this`rateWindowStart, limiter, guard
      ensures attack.None? ==> Ahead(settings, g0, packets, clock, i + 1, State().gates)
      ensures attack.Some? ==> InspectAll(settings, g0, packets, clock) == Served(State().gates, i, attack)
    {
      ghost var g := State().gates;
      attack := InspectPacket(packets[i], clock[i]);
      AheadStep(settings, g0, packets, clock, i, g);
    }

    /** The handler's loop; `None` means that every packet passed. */
    method InspectPackets(packets: seq<bytes>, clock: seq<int>) returns (attack: Option<Attack>)
      requires Wired() && |clock| >= |packets|
      modifies this`packetCount, this`rateWindowStart, this`passed, limiter, guard
      ensures var r := InspectAll(settings, old(State()).gates, packets, clock);
              State().gates == r.gates && passed == old(passed) + r.passed && attack == r.flag
    {
      ghost var g0 := State().gates;
      var i := 0;
      assert packets[0..] == packets && clock[0..] == clock;
      while i < |packets|
        invariant i <= |packets| && passed == old(passed) + i
        invariant Ahead(settings, g0, packets, clock, i, State().gates)
      {
        attack := InspectNext(g0, packets, clock, i);
        if attack.Some? {
          return;
        }
        passed := passed + 1;
        i := i + 1;
      }
      attack := None;
    }
  }
}
