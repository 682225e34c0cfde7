/** File manifests (src/file/manifest.js). Digests stand for their hexadecimal spelling. */
module Manifest {
  import opened Arithmetic
  import opened Bytes

  const DEFAULT_CHUNK_SIZE: pos := 512 * 1024

  datatype ChunkInfo = ChunkInfo(index: nat, hash: bytes, size: nat)

  /** Everything the signature covers. */
  datatype Body = Body(fileId: bytes, filename: string, size: nat, chunkSize: nat, nbChunks: nat,
                       chunks: seq<ChunkInfo>, senderId: bytes)

  datatype Manifest = Manifest(body: Body, signature: bytes)

  /** SHA-256, the JSON text of a body, and Ed25519 verification of (signature, message, public key). */
  datatype Suite = Suite(sha: bytes -> bytes, json: Body -> bytes, verify: (bytes, bytes, bytes) -> bool)

  function ManifestHash(c: Suite, b: Body): bytes {
    c.sha(c.json(b))
  }

  /** The bytes read at offset `i * chunkSize`, at most `chunkSize` of them. */
  function Slice(data: bytes, chunkSize: pos, i: nat): bytes
    requires i * chunkSize <= |data|
  {
    var start := i * chunkSize;
    var end := if start + chunkSize <= |data| then start + chunkSize else |data|;
    data[start..end]
  }

  /** The file cut into pieces of `chunkSize` bytes, the last one possibly shorter. */
  function Pieces(data: bytes, chunkSize: pos): seq<bytes>
    decreases |data|
  {
    if data == [] then []
    else if |data| <= chunkSize then [data]
    else [data[..chunkSize]] + Pieces(data[chunkSize..], chunkSize)
  }

  lemma {:induction false} PiecesConcat(data: bytes, chunkSize: pos)
    ensures Concat(Pieces(data, chunkSize)) == data
    decreases |data|
  {
    if |data| > chunkSize {
      PiecesConcat(data[chunkSize..], chunkSize);
      var ps := Pieces(data[chunkSize..], chunkSize);
      assert ([data[..chunkSize]] + ps)[1..] == ps;
    } else if data != [] {
      assert [data][1..] == [];
    }
  }

  lemma {:induction false} PiecesCount(data: bytes, chunkSize: pos)
    ensures var n := |Pieces(data, chunkSize)|;
            |data| <= n * chunkSize && (n > 0 ==> (n - 1) * chunkSize < |data|)
    ensures |Pieces(data, chunkSize)| == CeilDiv(|data|, chunkSize)
    decreases |data|
  {
    var n := |Pieces(data, chunkSize)|;
    if |data| > chunkSize {
      PiecesCount(data[chunkSize..], chunkSize);
      assert n * chunkSize == (n - 1) * chunkSize + chunkSize;
      assert n > 1 ==> (n - 1) * chunkSize == (n - 2) * chunkSize + chunkSize;
    }
    CeilDivIs(|data|, chunkSize, n);
  }

  lemma SliceOfRest(data: bytes, chunkSize: pos, i: pos)
    requires chunkSize <= |data| && (i - 1) * chunkSize <= |data| - chunkSize
    requires i * chunkSize == (i - 1) * chunkSize + chunkSize
    ensures Slice(data[chunkSize..], chunkSize, i - 1) == Slice(data, chunkSize, i)
  {}

  lemma {:induction false} PieceIsSlice(data: bytes, chunkSize: pos, i: nat)
    requires i < |Pieces(data, chunkSize)|
    ensures i * chunkSize <= |data|
    ensures Pieces(data, chunkSize)[i] == Slice(data, chunkSize, i)
    decreases |data|
  {
    if i > 0 {
      PieceIsSlice(data[chunkSize..], chunkSize, i - 1);
      assert i * chunkSize == (i - 1) * chunkSize + chunkSize;
      SliceOfRest(data, chunkSize, i);
    }
  }

  /** The chunk entries of a list of pieces. */
  function Infos(c: Suite, pieces: seq<bytes>): (r: seq<ChunkInfo>)
    ensures |r| == |pieces|
    ensures forall i :: 0 <= i < |r| ==> r[i] == ChunkInfo(i, c.sha(pieces[i]), |pieces[i]|)
  {
    seq(|pieces|, i requires 0 <= i < |pieces| => ChunkInfo(i, c.sha(pieces[i]), |pieces[i]|))
  }

  function BodyOf(c: Suite, data: bytes, chunkSize: pos, filename: string, senderId: bytes): Body {
    var ps := Pieces(data, chunkSize);
    Body(c.sha(data), filename, |data|, chunkSize, |ps|, Infos(c, ps), senderId)
  }

  function TotalSize(chunks: seq<ChunkInfo>): nat {
    if chunks == [] then 0 else TotalSize(chunks[..|chunks| - 1]) + chunks[|chunks| - 1].size
  }

  /** `verifyManifest` */
  predicate VerifyManifest(c: Suite, m: Manifest) {
    && m.body.fileId != []
    && |m.body.chunks| == m.body.nbChunks
    && TotalSize(m.body.chunks) == m.body.size
    && c.verify(m.signature, ManifestHash(c, m.body), m.body.senderId)
  }

  lemma {:induction false} TotalSizeIsLength(c: Suite, pieces: seq<bytes>)
    ensures TotalSize(Infos(c, pieces)) == |Concat(pieces)|
  {
    if pieces == [] {
    } else {
      var n := |pieces| - 1;
      TotalSizeIsLength(c, pieces[..n]);
      assert Infos(c, pieces)[..n] == Infos(c, pieces[..n]);
      assert pieces == pieces[..n] + [pieces[n]];
      ConcatAppend(pieces[..n], [pieces[n]]);
      assert Concat([pieces[n]]) == pieces[n];
    }
  }

  /** A manifest built by its sender passes verification, and its chunks partition the file. */
  lemma BuiltManifestVerifies(c: Suite, data: bytes, chunkSize: pos, filename: string, senderId: bytes, signature: bytes)
    requires c.sha(data) != []
    requires c.verify(signature, ManifestHash(c, BodyOf(c, data, chunkSize, filename, senderId)), senderId)
    ensures var b := BodyOf(c, data, chunkSize, filename, senderId);
            && VerifyManifest(c, Manifest(b, signature))
            && b.fileId == c.sha(data) && b.filename == filename && b.size == |data| && b.chunkSize == chunkSize
            && b.senderId == senderId
            && b.nbChunks == CeilDiv(|data|, chunkSize)
            && Concat(Pieces(data, chunkSize)) == data
            && forall i :: 0 <= i < b.nbChunks ==>
                 i * chunkSize <= |data|
                 && b.chunks[i] == ChunkInfo(i, c.sha(Slice(data, chunkSize, i)), |Slice(data, chunkSize, i)|)
  {
    var ps := Pieces(data, chunkSize);
    PiecesConcat(data, chunkSize);
    PiecesCount(data, chunkSize);
    TotalSizeIsLength(c, ps);
    forall i | 0 <= i < |ps|
      ensures i * chunkSize <= |data| && ps[i] == Slice(data, chunkSize, i)
    {
      PieceIsSlice(data, chunkSize, i);
    }
  }

  /** The entry of chunk `i` is the digest and length of the bytes read for it. */
  lemma InfoIs(c: Suite, data: bytes, chunkSize: pos, i: nat, start: nat, end: nat)
    requires i < |Pieces(data, chunkSize)| && start == i * chunkSize
    requires end == if start + chunkSize <= |data| then start + chunkSize else |data|
    ensures start <= end <= |data|
    ensures Infos(c, Pieces(data, chunkSize))[i] == ChunkInfo(i, c.sha(data[start..end]), end - start)
  {
    PieceIsSlice(data, chunkSize, i);
  }

  /** `buildManifest` without the file read; a chunk size of zero stands for the default. */
  method BuildManifest(c: Suite, sign: bytes -> bytes, data: bytes, chunkSizeOption: nat, filename: string,
                       senderId: bytes) returns (m: Manifest)
    ensures var chunkSize := if chunkSizeOption > 0 then chunkSizeOption else DEFAULT_CHUNK_SIZE;
            m.body == BodyOf(c, data, chunkSize, filename, senderId)
    ensures m.signature == sign(ManifestHash(c, m.body))
  {
    var chunkSize: pos := if chunkSizeOption > 0 then chunkSizeOption else DEFAULT_CHUNK_SIZE;
    var size := |data|;
    var nbChunks := CeilDiv(size, chunkSize);
    ghost var ps := Pieces(data, chunkSize);
    PiecesCount(data, chunkSize);
    var chunks := [];
    for i := 0 to nbChunks
      invariant |chunks| == i
      invariant forall j :: 0 <= j < i ==> chunks[j] == Infos(c, ps)[j]
    {
      var start := i * chunkSize;
      var end := if start + chunkSize <= size then start + chunkSize else size;
      InfoIs(c, data, chunkSize, i, start, end);
      chunks := chunks + [ChunkInfo(i, c.sha(data[start..end]), end - start)];
    }
    var body := Body(c.sha(data), filename, size, chunkSize, nbChunks, chunks, senderId);
    m := Manifest(body, sign(ManifestHash(c, body)));
  }
}
