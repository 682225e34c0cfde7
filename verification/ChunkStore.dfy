/** The local chunk store and its index (src/file/chunkStore.js), in memory. */
module ChunkStore {
  import opened Bytes
  import opened Manifest
  import P = FileProtocol

  /** `index.files[fileId]`: `chunks` lists the stored indices in increasing order. */
  datatype FileIndex = FileIndex(filename: string, size: nat, chunkSize: nat, nbChunks: nat, chunks: seq<nat>)

  type Disk = map<(bytes, nat), bytes>

  datatype Store = Store(files: map<bytes, FileIndex>, disk: Disk)

  predicate Has(s: Store, fileId: bytes, idx: nat) {
    fileId in s.files && idx in s.files[fileId].chunks
  }

  /** `registerManifest`: a file already known keeps its old entry. */
  function RegisterStep(s: Store, b: Body): Store {
    if b.fileId in s.files then s
    else s.(files := s.files[b.fileId := FileIndex(b.filename, b.size, b.chunkSize, b.nbChunks, [])])
  }

  // ---- Sorting the index ----

  function Insert(x: nat, s: seq<nat>): seq<nat> {
    if s == [] || x <= s[0] then [x] + s else [s[0]] + Insert(x, s[1..])
  }

  /** The numeric sort of the index. */
  function Sort(s: seq<nat>): seq<nat> {
    if s == [] then [] else Insert(s[|s| - 1], Sort(s[..|s| - 1]))
  }

  ghost predicate Increasing(s: seq<nat>) {
    forall i, j :: 0 <= i < j < |s| ==> s[i] < s[j]
  }

  lemma {:induction false} InsertMembers(x: nat, s: seq<nat>)
    ensures |Insert(x, s)| == |s| + 1
    ensures forall y :: y in Insert(x, s) <==> y == x || y in s
  {
    if s != [] && x > s[0] {
      InsertMembers(x, s[1..]);
      assert s == [s[0]] + s[1..];
    }
  }

  lemma IncreasingCons(x: nat, s: seq<nat>)
    requires Increasing(s) && forall y :: y in s ==> x < y
    ensures Increasing([x] + s)
  {
    assert forall i :: 0 <= i < |s| ==> s[i] in s;
  }

  lemma {:induction false} InsertIncreasing(x: nat, s: seq<nat>)
    requires Increasing(s) && x !in s
    ensures Increasing(Insert(x, s))
  {
    if s == [] || x <= s[0] {
      assert forall i :: 0 <= i < |s| ==> s[i] in s;
      IncreasingCons(x, s);
    } else {
      InsertIncreasing(x, s[1..]);
      InsertMembers(x, s[1..]);
      IncreasingCons(s[0], Insert(x, s[1..]));
    }
  }

  lemma InsertKeeps(x: nat, s: seq<nat>)
    requires Increasing(s) && x !in s
    ensures Increasing(Insert(x, s)) && |Insert(x, s)| == |s| + 1
    ensures forall y :: y in Insert(x, s) <==> y == x || y in s
  {
    InsertIncreasing(x, s);
    InsertMembers(x, s);
  }

  lemma {:induction false} SortIncreasing(s: seq<nat>)
    requires Increasing(s)
    ensures Sort(s) == s
  {
    if s != [] {
      var x, t := s[|s| - 1], s[..|s| - 1];
      SortIncreasing(t);
      InsertLast(x, t);
      assert s == t + [x];
    }
  }

  lemma {:induction false} InsertLast(x: nat, s: seq<nat>)
    requires forall i :: 0 <= i < |s| ==> s[i] < x
    ensures Insert(x, s) == s + [x]
  {
    if s != [] {
      InsertLast(x, s[1..]);
      assert s + [x] == [s[0]] + (s[1..] + [x]);
    }
  }

  /** Pushing a new index and sorting inserts it in its place. */
  lemma SortPush(s: seq<nat>, x: nat)
    requires Increasing(s) && x !in s
    ensures Sort(s + [x]) == Insert(x, s)
    ensures Increasing(Sort(s + [x])) && |Sort(s + [x])| == |s| + 1
    ensures forall y :: y in Sort(s + [x]) <==> y == x || y in s
  {
    assert (s + [x])[..|s|] == s;
    SortIncreasing(s);
    InsertKeeps(x, s);
  }

  // ---- Storing a chunk ----

  datatype PutResult = Stored(hash: bytes) | HashMismatch(got: bytes) | NoDirectory

  /**
   * `putChunk`: an empty expected digest is not compared; the write throws when the file was never
   * registered, for want of a directory.
   */
  function PutStep(sha: bytes -> bytes, s: Store, fileId: bytes, idx: nat, data: bytes, expected: bytes): (Store, PutResult) {
    var h := sha(data);
    if expected != [] && h != expected then (s, HashMismatch(h))
    else if fileId !in s.files then (s, NoDirectory)
    else
      var f := s.files[fileId];
      var chunks := if idx in f.chunks then f.chunks else Sort(f.chunks + [idx]);
      (Store(s.files[fileId := f.(chunks := chunks)], s.disk[(fileId, idx) := data]), Stored(h))
  }

  ghost predicate IndexInv(f: FileIndex) {
    Increasing(f.chunks) && forall i :: i in f.chunks ==> i < f.nbChunks
  }

  /** Every indexed chunk is on disk. */
  ghost predicate StoreInv(s: Store) {
    forall id :: id in s.files ==>
      IndexInv(s.files[id]) && forall i :: i in s.files[id].chunks ==> (id, i) in s.disk
  }

  lemma RegisterKeepsInv(s: Store, b: Body)
    requires StoreInv(s)
    ensures StoreInv(RegisterStep(s, b))
    ensures b.fileId in RegisterStep(s, b).files
  {}

  lemma PutKeepsInv(sha: bytes -> bytes, s: Store, fileId: bytes, idx: nat, data: bytes, expected: bytes)
    requires StoreInv(s)
    requires fileId in s.files ==> idx < s.files[fileId].nbChunks
    ensures var (s', r) := PutStep(sha, s, fileId, idx, data, expected);
            && StoreInv(s')
            && (r.Stored? <==> fileId in s.files && (expected == [] || sha(data) == expected))
            && r == (if expected != [] && sha(data) != expected then HashMismatch(sha(data))
                     else if fileId in s.files then Stored(sha(data)) else NoDirectory)
            && (!r.Stored? ==> s' == s)
            && (r.Stored? ==> Has(s', fileId, idx) && s'.disk[(fileId, idx)] == data)
            && (forall id, i :: Has(s', id, i) <==> Has(s, id, i) || (r.Stored? && id == fileId && i == idx))
            && (forall k :: k in s.disk && k != (fileId, idx) ==> k in s'.disk && s'.disk[k] == s.disk[k])
  {
    if fileId in s.files {
      var f := s.files[fileId];
      if idx !in f.chunks {
        SortPush(f.chunks, idx);
      }
    }
  }

  // ---- Completeness ----

  predicate Complete(s: Store, fileId: bytes) {
    fileId in s.files && |s.files[fileId].chunks| == s.files[fileId].nbChunks
  }

  lemma {:induction false} IncreasingAtLeast(s: seq<nat>, i: nat)
    requires Increasing(s) && i < |s|
    ensures s[i] >= i
  {
    if i > 0 {
      IncreasingAtLeast(s, i - 1);
    }
  }

  lemma {:induction false} IncreasingAtMost(s: seq<nat>, n: nat, i: nat)
    requires Increasing(s) && i < |s| && forall x :: x in s ==> x < n
    ensures s[i] <= n - (|s| - i)
    decreases |s| - i
  {
    assert s[i] in s;
    if i + 1 < |s| {
      IncreasingAtMost(s, n, i + 1);
    }
  }

  /** The prefix of `s` that lies below `n` is found by position: all of `[0, n)` needs `n` places. */
  lemma {:induction false} CoversLength(s: seq<nat>, n: nat)
    requires Increasing(s) && forall i :: 0 <= i < n ==> i in s
    ensures |s| >= n
    decreases n
  {
    if n > 0 {
      assert n - 1 in s;
      var k :| 0 <= k < |s| && s[k] == n - 1;
      forall i | 0 <= i < n - 1
        ensures i in s[..k]
      {
        assert i in s;
        var j :| 0 <= j < |s| && s[j] == i;
        assert s[..k][j] == i;
      }
      CoversLength(s[..k], n - 1);
    }
  }

  /** Pigeonhole: comparing lengths is the same as having every chunk. */
  lemma CompleteIff(f: FileIndex)
    requires IndexInv(f)
    ensures |f.chunks| == f.nbChunks <==> forall i :: 0 <= i < f.nbChunks ==> i in f.chunks
    ensures |f.chunks| <= f.nbChunks
  {
    var s, n := f.chunks, f.nbChunks;
    if s != [] {
      IncreasingAtLeast(s, |s| - 1);
      assert s[|s| - 1] in s;
    }
    if |s| == n {
      forall i | 0 <= i < n
        ensures i in s
      {
        IncreasingAtLeast(s, i);
        IncreasingAtMost(s, n, i);
        assert s[i] == i;
      }
    }
    if forall i :: 0 <= i < n ==> i in s {
      CoversLength(s, n);
    }
  }

  // ---- Reassembly ----

  /** The file counts as complete and every chunk file it needs can be read. */
  ghost predicate Readable(s: Store, fileId: bytes) {
    Complete(s, fileId) && forall i :: 0 <= i < s.files[fileId].nbChunks ==> (fileId, i) in s.disk
  }

  lemma CompleteIsReadable(s: Store, fileId: bytes)
    requires StoreInv(s)
    ensures Readable(s, fileId) <==> Complete(s, fileId)
  {
    if fileId in s.files {
      CompleteIff(s.files[fileId]);
    }
  }

  /** The stored chunks `0 .. n - 1` of a file. */
  function StoredPieces(d: Disk, fileId: bytes, n: nat): seq<bytes>
    requires forall i :: 0 <= i < n ==> (fileId, i) in d
  {
    seq(n, i requires 0 <= i < n => d[(fileId, i)])
  }

  // ---- Availability bitfields ----

  type bits = seq<bv8>

  /** The bit of chunk `i` within its byte, most significant first. */
  function Mask(i: nat): bv8 {
    1 << (7 - i % 8)
  }

  /** Whether the bit of chunk `i` is set; a byte past the end counts as zero. */
  predicate TestBit(bf: bits, i: nat) {
    i / 8 < |bf| && bf[i / 8] & Mask(i) != 0
  }

  /** Sets the bit of chunk `i`; a write past the end has no effect. */
  function SetBit(bf: bits, i: nat): bits {
    if i / 8 < |bf| then bf[i / 8 := bf[i / 8] | Mask(i)] else bf
  }

  lemma MaskTest(b: bv8, j: nat, k: nat)
    requires j < 8 && k < 8
    ensures (b | (1 << (7 - j))) & (1 << (7 - k)) != 0 <==> j == k || b & (1 << (7 - k)) != 0
  {}

  lemma SetThenTest(bf: bits, i: nat, j: nat)
    requires i / 8 < |bf|
    ensures TestBit(SetBit(bf, i), j) <==> i == j || TestBit(bf, j)
  {
    if i / 8 == j / 8 {
      MaskTest(bf[i / 8], i % 8, j % 8);
      assert i == 8 * (i / 8) + i % 8 && j == 8 * (j / 8) + j % 8;
    }
  }

  function SetAll(bf: bits, indices: seq<nat>): bits
    decreases |indices|
  {
    if indices == [] then bf else SetAll(SetBit(bf, indices[0]), indices[1..])
  }

  lemma {:induction false} SetAllTest(bf: bits, indices: seq<nat>, j: nat)
    requires forall i :: i in indices ==> i / 8 < |bf|
    ensures |SetAll(bf, indices)| == |bf|
    ensures TestBit(SetAll(bf, indices), j) <==> j in indices || TestBit(bf, j)
    decreases |indices|
  {
    if indices != [] {
      assert indices[0] in indices && forall i :: i in indices[1..] ==> i in indices;
      assert j in indices <==> j == indices[0] || j in indices[1..];
      SetThenTest(bf, indices[0], j);
      SetAllTest(SetBit(bf, indices[0]), indices[1..], j);
    }
  }

  /** `bitfield`: empty for an unknown file. */
  function Bitfield(s: Store, fileId: bytes): bits {
    if fileId !in s.files then []
    else
      var f := s.files[fileId];
      SetAll(seq((f.nbChunks + 7) / 8, _ => 0), f.chunks)
  }

  lemma SetNext(bf: bits, indices: seq<nat>, k: nat)
    requires k < |indices|
    ensures SetAll(bf, indices[k..]) == SetAll(SetBit(bf, indices[k]), indices[k + 1..])
  {
    assert indices[k..][1..] == indices[k + 1..];
  }

  /** `parseBitfield` */
  function ParseBitfield(bf: bits, nbChunks: nat): seq<nat> {
    if nbChunks == 0 then []
    else ParseBitfield(bf, nbChunks - 1) + if TestBit(bf, nbChunks - 1) then [nbChunks - 1] else []
  }

  lemma {:induction false} ParsedBits(bf: bits, n: nat)
    ensures Increasing(ParseBitfield(bf, n))
    ensures forall i: nat :: i in ParseBitfield(bf, n) <==> i < n && TestBit(bf, i)
  {
    if n > 0 {
      ParsedBits(bf, n - 1);
      ParsedMore(bf, ParseBitfield(bf, n - 1), n - 1);
    }
  }

  /** The list of the set bits below `n` goes on with bit `n`. */
  lemma ParsedMore(bf: bits, p: seq<nat>, n: nat)
    requires Increasing(p) && forall i: nat :: i in p <==> i < n && TestBit(bf, i)
    ensures var p' := p + if TestBit(bf, n) then [n] else [];
            Increasing(p') && forall i: nat :: i in p' <==> i < n + 1 && TestBit(bf, i)
  {
    if TestBit(bf, n) {
      IncreasingSnoc(p, n);
      MemberSnoc(p, n);
    } else {
      assert p + [] == p;
    }
  }

  lemma IncreasingSnoc(p: seq<nat>, x: nat)
    requires Increasing(p) && forall y: nat :: y in p ==> y < x
    ensures Increasing(p + [x])
  {
    forall i | 0 <= i < |p|
      ensures p[i] < x
    {
      assert p[i] in p;
    }
  }

  lemma MemberSnoc(p: seq<nat>, x: nat)
    ensures forall y: nat :: y in p + [x] <==> y in p || y == x
  {}

  lemma FirstMember(t: seq<nat>)
    requires t != []
    ensures t[0] in t
  {}

  /** Two increasing lists with the same elements are the same list. */
  lemma {:induction false} IncreasingUnique(s: seq<nat>, t: seq<nat>)
    requires Increasing(s) && Increasing(t)
    requires forall x :: x in s <==> x in t
    ensures s == t
    decreases |s|
  {
    if s == [] {
      if t != [] {
        FirstMember(t);
      }
    } else {
      assert s[0] in s && s[0] in t;
      assert t[0] in t && t[0] in s;
      assert s[0] == t[0];
      forall x
        ensures x in s[1..] <==> x in t[1..]
      {
        assert x in s[1..] ==> x in s && x > s[0];
        assert x in t[1..] ==> x in t && x > t[0];
        assert x in s && x > s[0] ==> x in s[1..];
        assert x in t && x > t[0] ==> x in t[1..];
      }
      IncreasingUnique(s[1..], t[1..]);
    }
  }

  function ToBytes(bf: bits): (r: bytes)
    ensures |r| == |bf|
  {
    seq(|bf|, i requires 0 <= i < |bf| => bf[i] as int)
  }

  function FromBytes(s: bytes): (r: bits)
    ensures |r| == |s|
  {
    seq(|s|, i requires 0 <= i < |s| => s[i] as bv8)
  }

  lemma BitsRoundTrip(bf: bits)
    ensures FromBytes(ToBytes(bf)) == bf
  {
    forall i | 0 <= i < |bf|
      ensures FromBytes(ToBytes(bf))[i] == bf[i]
    {
      assert (bf[i] as int) as bv8 == bf[i];
    }
  }

  lemma BitfieldBit(f: FileIndex, i: nat)
    requires IndexInv(f)
    ensures var zero: bits := seq((f.nbChunks + 7) / 8, _ => 0);
            TestBit(SetAll(zero, f.chunks), i) <==> i in f.chunks
  {
    var zero: bits := seq((f.nbChunks + 7) / 8, _ => 0);
    SetAllTest(zero, f.chunks, i);
    ZeroBits(zero, i);
  }

  lemma BitfieldParses(f: FileIndex)
    requires IndexInv(f)
    ensures var zero: bits := seq((f.nbChunks + 7) / 8, _ => 0);
            ParseBitfield(SetAll(zero, f.chunks), f.nbChunks) == f.chunks
  {
    var bf := SetAll(seq((f.nbChunks + 7) / 8, _ => 0), f.chunks);
    ParsedBits(bf, f.nbChunks);
    forall i: nat
      ensures i in ParseBitfield(bf, f.nbChunks) <==> i in f.chunks
    {
      BitfieldBit(f, i);
    }
    IncreasingUnique(ParseBitfield(bf, f.nbChunks), f.chunks);
  }

  /**
   * Announcing what one has. The HAVE message a node builds from its bitfield, once decoded and parsed
   * by a peer that knows the number of chunks, yields exactly the stored indices, in order.
   */
  lemma AvailabilityRoundTrip(j: P.Json, s: Store, fileId: bytes)
    requires StoreInv(s) && fileId in s.files && |fileId| == 32
    ensures var m := P.Have(fileId, ToBytes(Bitfield(s, fileId)));
            && P.Encode(j, m).Some?
            && P.Decode(j, P.Encode(j, m).value) == Some(m)
            && ParseBitfield(FromBytes(m.bitfield), s.files[fileId].nbChunks) == s.files[fileId].chunks
  {
    P.MessageRoundTrip(j, P.Have(fileId, ToBytes(Bitfield(s, fileId))));
    BitsRoundTrip(Bitfield(s, fileId));
    BitfieldParses(s.files[fileId]);
  }

  lemma ZeroBits(bf: bits, i: nat)
    requires forall k :: 0 <= k < |bf| ==> bf[k] == 0
    ensures !TestBit(bf, i)
  {
    ZeroMask(Mask(i));
  }

  lemma ZeroMask(m: bv8)
    ensures 0 & m == 0
  {}

  // ---- The class ----

  class ChunkStore {
    const sha: bytes -> bytes
    var files: map<bytes, FileIndex>
    var disk: Disk

    constructor (sha: bytes -> bytes)
      ensures this.sha == sha && State() == Store(map[], map[]) && StoreInv(State())
    {
      this.sha, files, disk := sha, map[], map[];
    }

    function State(): Store
      reads this
    {
      Store(files, disk)
    }

    method RegisterManifest(b: Body)
      modifies this`files
      ensures State() == RegisterStep(old(State()), b)
    {
      if b.fileId !in files {
        files := files[b.fileId := FileIndex(b.filename, b.size, b.chunkSize, b.nbChunks, [])];
      }
    }

    method PutChunk(fileId: bytes, idx: nat, data: bytes, expected: bytes) returns (r: PutResult)
      modifies this
      ensures (State(), r) == PutStep(sha, old(State()), fileId, idx, data, expected)
    {
      var h := sha(data);
      if expected != [] && h != expected {
        return HashMismatch(h);
      }
      if fileId !in files {
        return NoDirectory;
      }
      disk := disk[(fileId, idx) := data];
      var f := files[fileId];
      assert files == files[fileId := f];
      if idx !in f.chunks {
        f := f.(chunks := Sort(f.chunks + [idx]));
        files := files[fileId := f];
      }
      return Stored(h);
    }

    /** Writing past the end of a buffer does nothing. */
    static method SetInPlace(bf: array<bv8>, i: nat)
      modifies bf
      ensures bf[..] == SetBit(old(bf[..]), i)
    {
      if i / 8 < bf.Length {
        bf[i / 8] := bf[i / 8] | Mask(i);
      }
    }

    /** The bits are set one chunk at a time in a zeroed buffer. */
    method BuildBitfield(fileId: bytes) returns (bf: array<bv8>)
      ensures fresh(bf) && bf[..] == Bitfield(State(), fileId)
    {
      if fileId !in files {
        bf := new bv8[0];
        return;
      }
      var f := files[fileId];
      bf := new bv8[(f.nbChunks + 7) / 8](_ => 0);
      assert bf[..] == seq((f.nbChunks + 7) / 8, _ => 0);
      var k := 0;
      assert f.chunks[0..] == f.chunks;
      while k < |f.chunks|
        invariant k <= |f.chunks|
        invariant SetAll(bf[..], f.chunks[k..]) == Bitfield(State(), fileId)
      {
        SetNext(bf[..], f.chunks, k);
        SetInPlace(bf, f.chunks[k]);
        k := k + 1;
      }
    }

    /** `parseBitfield`, a static method in the source. */
    method Parse(bf: bits, nbChunks: nat) returns (indices: seq<nat>)
      ensures indices == ParseBitfield(bf, nbChunks)
    {
      indices := [];
      for i := 0 to nbChunks
        invariant indices == ParseBitfield(bf, i)
      {
        if TestBit(bf, i) {
          indices := indices + [i];
        }
      }
    }

    /** `assemble`: the bytes written and their digest; `None` is the throw on an incomplete file. */
    method Assemble(fileId: bytes) returns (r: Option<(bytes, bytes)>)
      ensures r.Some? <==> Readable(State(), fileId)
      ensures r.Some? ==>
                && r.value.0 == Concat(StoredPieces(disk, fileId, files[fileId].nbChunks))
                && r.value.1 == sha(r.value.0)
    {
      if fileId !in files || |files[fileId].chunks| != files[fileId].nbChunks {
        return None;
      }
      var n := files[fileId].nbChunks;
      var pieces: seq<bytes> := [];
      var out: bytes := [];
      for i := 0 to n
        invariant |pieces| == i && out == Concat(pieces)
        invariant forall k :: 0 <= k < i ==> (fileId, k) in disk && pieces[k] == disk[(fileId, k)]
      {
        if (fileId, i) !in disk {
          return None;
        }
        var piece := disk[(fileId, i)];
        ConcatAppend(pieces, [piece]);
        assert Concat([piece]) == piece;
        pieces := pieces + [piece];
        out := out + piece;
      }
      assert pieces == StoredPieces(disk, fileId, n);
      return Some((out, sha(out)));
    }
  }
}
