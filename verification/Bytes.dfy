/** Byte strings and the fixed-width big-endian integers that every wire format of the repository uses. */
module Bytes {
  type byte = x: int | 0 <= x < 256

  type bytes = seq<byte>

  datatype Option<+T> = None | Some(value: T)

  function Pow256(w: nat): (p: nat)
    ensures p > 0
  {
    if w == 0 then 1 else 256 * Pow256(w - 1)
  }

  /** The `w`-byte big-endian encoding (`writeUInt16BE`, `writeUInt32BE`, `writeBigUInt64BE`). */
  function BigEndian(n: nat, w: nat): (s: bytes)
    requires n < Pow256(w)
    ensures |s| == w
  {
    if w == 0 then [] else BigEndian(n / 256, w - 1) + [n % 256]
  }

  /** The number a big-endian byte string stands for (`readUInt32BE` and its siblings). */
  function ToNat(s: bytes): nat {
    if s == [] then 0 else 256 * ToNat(s[..|s| - 1]) + s[|s| - 1]
  }

  lemma {:induction false} BigEndianRoundTrip(n: nat, w: nat)
    requires n < Pow256(w)
    ensures ToNat(BigEndian(n, w)) == n
  {
    if w > 0 {
      BigEndianRoundTrip(n / 256, w - 1);
      var s := BigEndian(n, w);
      assert s[..|s| - 1] == BigEndian(n / 256, w - 1);
    }
  }

  const U32: nat := 0x1_0000_0000
  const U64: nat := 0x1_0000_0000_0000_0000

  lemma Widths()
    ensures Pow256(1) == 256
    ensures Pow256(2) == 0x1_0000
    ensures Pow256(4) == U32
    ensures Pow256(8) == U64
  {
    assert Pow256(2) == 256 * Pow256(1);
    assert Pow256(3) == 256 * Pow256(2);
    assert Pow256(4) == 256 * Pow256(3);
    assert Pow256(5) == 256 * Pow256(4);
    assert Pow256(6) == 256 * Pow256(5);
    assert Pow256(7) == 256 * Pow256(6);
    assert Pow256(8) == 256 * Pow256(7);
  }

  function Put32(n: nat): (s: bytes)
    requires n < U32
    ensures |s| == 4
    ensures ToNat(s) == n
  {
    Widths();
    BigEndianRoundTrip(n, 4);
    BigEndian(n, 4)
  }

  function Put64(n: nat): (s: bytes)
    requires n < U64
    ensures |s| == 8
    ensures ToNat(s) == n
  {
    Widths();
    BigEndianRoundTrip(n, 8);
    BigEndian(n, 8)
  }

  lemma {:induction false} ToNatBound(s: bytes)
    ensures ToNat(s) < Pow256(|s|)
  {
    if s != [] {
      ToNatBound(s[..|s| - 1]);
    }
  }

  /** `readBigUInt64BE(at)` */
  function Get64(s: bytes, at: nat): (n: nat)
    requires at + 8 <= |s|
    ensures n < U64
  {
    ToNatBound(s[at..at + 8]);
    Widths();
    ToNat(s[at..at + 8])
  }

  /** The 4-byte field at offset `at` (`readUInt32BE(at)`). */
  function Get32(s: bytes, at: nat): nat
    requires at + 4 <= |s|
  {
    ToNat(s[at..at + 4])
  }

  /** `Buffer.concat`. */
  function Concat<T>(parts: seq<seq<T>>): seq<T> {
    if parts == [] then [] else parts[0] + Concat(parts[1..])
  }

  lemma Assoc<T>(x: seq<T>, y: seq<T>, z: seq<T>)
    ensures x + (y + z) == (x + y) + z
  {}

  /** Cutting inside the first of two parts leaves the second alone. */
  lemma CutFront<T>(x: seq<T>, y: seq<T>, n: nat)
    requires n <= |x|
    ensures (x + y)[n..] == x[n..] + y
    ensures (x + y)[..n] == x[..n]
  {}

  lemma CutHead<T>(x: seq<T>, y: seq<T>)
    ensures (x + y)[..|x|] == x
    ensures (x + y)[|x|..] == y
  {}

  lemma CutThree<T>(s: seq<T>, i: nat, j: nat)
    requires i <= j <= |s|
    ensures s == s[..i] + (s[i..j] + s[j..])
  {}

  lemma Middle<T>(x: seq<T>, y: seq<T>, z: seq<T>)
    ensures (x + (y + z))[|x|..|x| + |y|] == y
  {}

  lemma {:induction false} ConcatAppend<T>(xs: seq<seq<T>>, ys: seq<seq<T>>)
    ensures Concat(xs + ys) == Concat(xs) + Concat(ys)
  {
    if xs == [] {
      assert xs + ys == ys;
    } else {
      ConcatAppend(xs[1..], ys);
      CutFront(xs, ys, 1);
      Assoc(xs[0], Concat(xs[1..]), Concat(ys));
    }
  }
}
