/** What renewing keys achieves: every generation of either direction has a key of its own. */
module SessionKeys {
  import opened Bytes
  import opened Handshake
  import opened SecureConnection
  import opened SessionKeyUse
  import opened SessionLimits
  import opened SessionLink
  import opened SessionOpening
  import opened SessionPair
  import opened SessionRenewal
  import opened SessionRun
  import opened SessionSafety

  /** One renewal: HKDF-SHA256 of the current key under the salt and label of the protocol. */
  function Renewed(k: Crypto, key: bytes): bytes {
    k.hkdf(Ascii("AttestP2P-rekey-v1"), key, Ascii("AttestP2P rekey"))
  }

  ghost predicate Injective(k: Crypto) {
    forall x: bytes, y: bytes :: Renewed(k, x) == Renewed(k, y) ==> x == y
  }

  /** No renewal leads to this key. */
  ghost predicate Original(k: Crypto, base: bytes) {
    forall x: bytes :: Renewed(k, x) != base
  }

  /** Each generation's key is the HKDF of the one before. */
  lemma KeyAtRenews(k: Crypto, base: bytes, g: nat)
    ensures KeyAt(k, base, 0) == base
    ensures KeyAt(k, base, g + 1) == k.hkdf(Ascii("AttestP2P-rekey-v1"), KeyAt(k, base, g), Ascii("AttestP2P rekey"))
  {}

  /** Keys `d` generations apart agree exactly when `d` renewals lead from the first key back to itself. */
  lemma {:induction false} SameKeyIff(k: Crypto, base: bytes, g: nat, d: nat)
    requires Injective(k)
    ensures KeyAt(k, base, g) == KeyAt(k, base, g + d) <==> base == KeyAt(k, base, d)
  {
    if g > 0 {
      SameKeyIff(k, base, g - 1, d);
      KeyAtRenews(k, base, g - 1);
      KeyAtRenews(k, base, g - 1 + d);
      assert Renewed(k, KeyAt(k, base, g - 1)) == KeyAt(k, base, g);
      assert Renewed(k, KeyAt(k, base, g - 1 + d)) == KeyAt(k, base, g + d);
    }
  }

  /** The keys of the generations up to `n` all differ. */
  ghost predicate AllDiffer(k: Crypto, base: bytes, n: nat) {
    forall g: nat, h: nat :: g < h <= n ==> KeyAt(k, base, g) != KeyAt(k, base, h)
  }

  /** One of the first `n` renewals leads back to the first key. */
  ghost predicate Returns(k: Crypto, base: bytes, n: nat) {
    exists d: nat :: 0 < d <= n && KeyAt(k, base, d) == base
  }

  /** Up to generation `n` all keys differ exactly when none of the first `n` renewals leads back to the first key. */
  lemma AllDifferIff(k: Crypto, base: bytes, n: nat)
    requires Injective(k)
    ensures AllDiffer(k, base, n) <==> !Returns(k, base, n)
  {
    if Returns(k, base, n) {
      var d: nat :| 0 < d <= n && KeyAt(k, base, d) == base;
      assert KeyAt(k, base, 0) == KeyAt(k, base, d);
    } else {
      forall g: nat, h: nat | g < h <= n
        ensures KeyAt(k, base, g) != KeyAt(k, base, h)
      {
        SameKeyIff(k, base, g, h - g);
      }
    }
  }

  /** So where no renewal leads back to the first key, generations have equal keys only if they are equal. */
  lemma GenerationsDiffer(k: Crypto, base: bytes, g: nat, h: nat)
    requires Injective(k) && Original(k, base)
    ensures KeyAt(k, base, g) == KeyAt(k, base, h) <==> g == h
  {
    if g < h {
      SameKeyIff(k, base, g, h - g);
      KeyAtRenews(k, base, h - g - 1);
      assert Renewed(k, KeyAt(k, base, h - g - 1)) == KeyAt(k, base, h - g);
    } else if h < g {
      GenerationsDiffer(k, base, h, g);
    }
  }

  /** Nor do two directions with different first keys ever share one. */
  lemma {:induction false} DirectionsDiffer(k: Crypto, a: bytes, b: bytes, g: nat, h: nat)
    requires Injective(k) && Original(k, a) && Original(k, b) && a != b
    ensures KeyAt(k, a, g) != KeyAt(k, b, h)
    decreases g
  {
    if g > 0 {
      KeyAtRenews(k, a, g - 1);
      assert Renewed(k, KeyAt(k, a, g - 1)) == KeyAt(k, a, g);
    }
    if h > 0 {
      KeyAtRenews(k, b, h - 1);
      assert Renewed(k, KeyAt(k, b, h - 1)) == KeyAt(k, b, h);
    }
    if g > 0 && h > 0 {
      DirectionsDiffer(k, a, b, g - 1, h - 1);
    }
  }

  // ---- The two directions of a session ----

  /** The first keys are the HKDF of the X25519 secret under the salt and the two labels of the handshake. */
  lemma FirstKeys(k: Crypto, u: Setup)
    requires Laws(k)
    ensures var secret := k.dh(u.i.eph, k.pub(u.r.eph)).value;
            && FirstI(k, u) == k.hkdf(Ascii("AttestP2P-noise-v1"), secret, Ascii("AttestP2P I->R"))
            && FirstR(k, u) == k.hkdf(Ascii("AttestP2P-noise-v1"), secret, Ascii("AttestP2P R->I"))
  {}

  /**
   * What is asked of HKDF: renewal is injective, leads to neither first key of the exchange, and the two
   * labels of the handshake give different keys.
   */
  ghost predicate Separates(k: Crypto, u: Setup)
    requires Laws(k)
  {
    var secret := k.dh(u.i.eph, k.pub(u.r.eph)).value;
    var kI := k.hkdf(Ascii("AttestP2P-noise-v1"), secret, Ascii("AttestP2P I->R"));
    var kR := k.hkdf(Ascii("AttestP2P-noise-v1"), secret, Ascii("AttestP2P R->I"));
    Injective(k) && Original(k, kI) && Original(k, kR) && kI != kR
  }

  /** The key an end sends with, the one it receives with, and their generations. */
  function TxKey(c: Conn): bytes
    requires c.session.Some?
  {
    c.session.value.txKey
  }

  function RxKey(c: Conn): bytes
    requires c.session.Some?
  {
    c.session.value.rxKey
  }

  ghost function First(k: Crypto, u: Setup, side: Side): bytes
    requires Laws(k)
  {
    if side == I then FirstI(k, u) else FirstR(k, u)
  }

  /** In every reachable state the keys of an end are those of its generations. */
  lemma KeysOf(k: Crypto, u: Setup, s: Sys, side: Side)
    requires Laws(k) && Reachable(k, u, s) && End(s, side).session.Some?
    ensures var x := End(s, side).session.value;
            x.txKey == KeyAt(k, First(k, u, side), x.txGen) && x.rxKey == KeyAt(k, First(k, u, Other(side)), x.rxGen)
  {
    var fi, fr := ReachableInv(k, u, s);
  }

  /**
   * In every reachable state a sender and its receiver hold the same key exactly when they are in the same
   * generation, and no end ever sends with a key it receives with.
   */
  lemma KeysAgreeIff(k: Crypto, u: Setup, s: Sys, side: Side)
    requires Laws(k) && Separates(k, u) && Reachable(k, u, s)
    requires End(s, side).session.Some? && End(s, Other(side)).session.Some?
    ensures var x, y := End(s, side).session.value, End(s, Other(side)).session.value;
            && (x.txKey == y.rxKey <==> x.txGen == y.rxGen)
            && x.txKey != x.rxKey && x.txKey != y.txKey
  {
    var x, y := End(s, side).session.value, End(s, Other(side)).session.value;
    KeysOf(k, u, s, side);
    KeysOf(k, u, s, Other(side));
    GenerationsDiffer(k, First(k, u, side), x.txGen, y.rxGen);
    DirectionsDiffer(k, First(k, u, side), First(k, u, Other(side)), x.txGen, x.rxGen);
    DirectionsDiffer(k, First(k, u, side), First(k, u, Other(side)), x.txGen, y.txGen);
  }

  // ---- Renewal over a run ----

  lemma SideAdvances(k: Crypto, s: Sys, e: Event, side: Side)
    requires Laws(k)
    ensures Gen(End(Step(k, s, e), side)) >= Gen(End(s, side))
  {
    var c := End(s, side);
    match e
    case Act(who, op) => if who == side { OpAdvances(k, c, op); }
    case Arrive(who, n) =>
      if who == side {
        var out := End(s, Other(side)).sock.out;
        ReceiveTx(c, out[..Upto(n, out)]);
      }
  }

  lemma {:induction false} GenRises(k: Crypto, u: Setup, states: seq<Sys>, events: seq<Event>, side: Side, j: nat, m: nat)
    requires Laws(k) && Trace(k, u, states, events) && j <= m <= |events|
    ensures Gen(End(states[j], side)) <= Gen(End(states[m], side))
    decreases m
  {
    if j < m {
      GenRises(k, u, states, events, side, j, m - 1);
      assert Follows(k, states, events, m - 1);
      SideAdvances(k, states[m - 1], events[m - 1], side);
    }
  }

  /** At any two moments of a run an end sends with the same key exactly when it has not renewed between. */
  lemma SameKeySameGeneration(k: Crypto, u: Setup, states: seq<Sys>, events: seq<Event>, side: Side, j: nat, m: nat)
    requires Laws(k) && Separates(k, u) && Trace(k, u, states, events) && j <= m <= |events|
    requires End(states[j], side).session.Some? && End(states[m], side).session.Some?
    ensures TxKey(End(states[j], side)) == TxKey(End(states[m], side))
            <==> Gen(End(states[j], side)) == Gen(End(states[m], side))
  {
    PrefixReachable(k, u, states, events, j);
    PrefixReachable(k, u, states, events, m);
    KeysOf(k, u, states[j], side);
    KeysOf(k, u, states[m], side);
    GenerationsDiffer(k, First(k, u, side), Gen(End(states[j], side)), Gen(End(states[m], side)));
  }

  /** `rekey` on an open end that awaits no renewal moves on to the next generation. */
  lemma RekeyAdvances(k: Crypto, c: Conn, nonce: Nonce)
    requires Laws(k) && c.session.Some? && !c.tx.rekeying
    ensures var c' := Apply(k, c, AppRekey(nonce)); c'.session.Some? && Gen(c') == Gen(c) + 1
  {
    StartRekeyAdvances(k, c, nonce);
    OpenSealed(k, c.session.value.txKey, nonce, PlainBytes(Rekey));
    PlainRoundTrip(Rekey);
  }

  /**
   * A renewal really renews. The key an end sends with after `rekey` differs from its key at every earlier
   * moment of the run, and from the key of every earlier generation.
   */
  lemma RekeyChangesKey(k: Crypto, u: Setup, states: seq<Sys>, events: seq<Event>, side: Side, m: nat)
    requires Laws(k) && Separates(k, u) && Trace(k, u, states, events) && m < |events|
    requires events[m].Act? && events[m].side == side && events[m].op.AppRekey?
    requires End(states[m], side).session.Some? && !End(states[m], side).tx.rekeying
    ensures End(states[m + 1], side).session.Some?
    ensures forall j :: 0 <= j <= m && End(states[j], side).session.Some? ==>
              TxKey(End(states[j], side)) != TxKey(End(states[m + 1], side))
    ensures forall g :: 0 <= g <= Gen(End(states[m], side)) ==>
              KeyAt(k, First(k, u, side), g) != TxKey(End(states[m + 1], side))
  {
    assert Follows(k, states, events, m);
    RekeyAdvances(k, End(states[m], side), events[m].op.nonce);
    forall j | 0 <= j <= m && End(states[j], side).session.Some?
      ensures TxKey(End(states[j], side)) != TxKey(End(states[m + 1], side))
    {
      GenRises(k, u, states, events, side, j, m);
      SameKeySameGeneration(k, u, states, events, side, j, m + 1);
    }
    PrefixReachable(k, u, states, events, m + 1);
    KeysOf(k, u, states[m + 1], side);
    forall g | 0 <= g <= Gen(End(states[m], side))
      ensures KeyAt(k, First(k, u, side), g) != TxKey(End(states[m + 1], side))
    {
      GenerationsDiffer(k, First(k, u, side), g, Gen(End(states[m + 1], side)));
    }
  }

  // ---- The assumptions are consistent ----

  /** A toy HKDF: renewal prepends 1 to a key; the handshake prepends 0 and the byte that tells the labels apart. */
  function ToyHkdf(salt: bytes, ikm: bytes, info: bytes): bytes {
    if salt == Ascii("AttestP2P-rekey-v1") then [1] + ikm
    else if |info| > 10 then [0, info[10]] + ikm
    else [0, 0] + ikm
  }

  /** Some primitives satisfy `Laws` and `Separates`, for every exchange. */
  lemma SeparatesSatisfiable()
    ensures exists k: Crypto :: Laws(k) && forall u: Setup :: Separates(k, u)
  {
    LawsSatisfiable();
    var k0: Crypto :| Laws(k0);
    var k := k0.(hkdf := (salt, ikm, info) => ToyHkdf(salt, ikm, info));
    AnyHkdf(k0, k);
    forall u: Setup
      ensures Separates(k, u)
    {
      ToySeparates(k, u);
    }
  }

  lemma ToySeparates(k: Crypto, u: Setup)
    requires Laws(k) && forall salt, ikm, info :: k.hkdf(salt, ikm, info) == ToyHkdf(salt, ikm, info)
    ensures Separates(k, u)
  {
    forall x: bytes
      ensures Renewed(k, x) == [1] + x && Renewed(k, x)[0] == 1 && Renewed(k, x)[1..] == x
    {}
    Labels();
    var secret := k.dh(u.i.eph, k.pub(u.r.eph)).value;
    var kI := k.hkdf(Ascii("AttestP2P-noise-v1"), secret, Ascii("AttestP2P I->R"));
    var kR := k.hkdf(Ascii("AttestP2P-noise-v1"), secret, Ascii("AttestP2P R->I"));
    assert kI[0] == 0 && kR[0] == 0 && kI[1] != kR[1];
  }

  /** `Laws` says nothing of HKDF. */
  lemma AnyHkdf(k0: Crypto, k: Crypto)
    requires Laws(k0) && k == k0.(hkdf := k.hkdf)
    ensures Laws(k)
  {}

  lemma Labels()
    ensures Ascii("AttestP2P-noise-v1") != Ascii("AttestP2P-rekey-v1")
    ensures |Ascii("AttestP2P I->R")| == 14 && |Ascii("AttestP2P R->I")| == 14
    ensures Ascii("AttestP2P I->R")[10] != Ascii("AttestP2P R->I")[10]
  {
    assert Ascii("AttestP2P-noise-v1")[10] == 'n' as int;
    assert Ascii("AttestP2P-rekey-v1")[10] == 'r' as int;
    assert Ascii("AttestP2P I->R")[10] == 'I' as int;
    assert Ascii("AttestP2P R->I")[10] == 'R' as int;
  }
}
