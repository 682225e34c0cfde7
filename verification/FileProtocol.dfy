/** The messages of the file transfer (src/file/protocol.js). */
module FileProtocol {
  import opened Bytes
  import M = Manifest

  const MANIFEST: byte := 0x10
  const CHUNK_REQ: byte := 0x11
  const CHUNK_DATA: byte := 0x12
  const ACK: byte := 0x13
  const HAVE: byte := 0x14
  const HAVE_PIECE: byte := 0x15

  /** `JSON.stringify` and `JSON.parse` on manifests; `None` is the throw of `parse`. */
  datatype Json = Json(text: M.Manifest -> bytes, parse: bytes -> Option<M.Manifest>)

  datatype Message =
    | Manifest(manifest: M.Manifest)
    | Have(fileId: bytes, bitfield: bytes)
    | HavePiece(fileId: bytes, idx: nat)
    | ChunkReq(fileId: bytes, idx: nat)
    | ChunkData(fileId: bytes, idx: nat, chunkHash: bytes, signature: bytes, data: bytes)
    | Ack(idx: nat, status: Option<byte>)

  /** `subarray(a, b)`, which clamps its bounds. */
  function Sub(s: bytes, a: nat, b: nat): bytes {
    if |s| <= a || b <= a then [] else if |s| <= b then s[a..] else s[a..b]
  }

  /** The encoders. `None` is the throw of `writeUInt32BE` on an index of 2^32 or more. */
  function Encode(j: Json, m: Message): Option<bytes> {
    match m
    case Manifest(x) => Some([MANIFEST] + j.text(x))
    case Have(f, bits) => Some([HAVE] + f + bits)
    case HavePiece(f, i) => if i < U32 then Some([HAVE_PIECE] + f + Put32(i)) else None
    case ChunkReq(f, i) => if i < U32 then Some([CHUNK_REQ] + f + Put32(i)) else None
    case ChunkData(f, i, h, s, d) => if i < U32 then Some([CHUNK_DATA] + f + Put32(i) + h + s + d) else None
    case Ack(i, st) =>
      if i < U32 then Some([ACK] + Put32(i) + [if st.Some? then st.value else 0]) else None
  }

  /** `decode`; `None` is any of its throws. */
  function Decode(j: Json, buf: bytes): Option<Message> {
    if buf == [] then None
    else
      var kind, p := buf[0], buf[1..];
      if kind == MANIFEST then
        (match j.parse(p) case Some(m) => Some(Manifest(m)) case None => None)
      else if kind == HAVE then Some(Have(Sub(p, 0, 32), Sub(p, 32, |p|)))
      else if kind == HAVE_PIECE then
        if |p| < 36 then None else Some(HavePiece(Sub(p, 0, 32), Get32(p, 32)))
      else if kind == CHUNK_REQ then
        if |p| < 36 then None else Some(ChunkReq(Sub(p, 0, 32), Get32(p, 32)))
      else if kind == CHUNK_DATA then
        if |p| < 36 then None
        else Some(ChunkData(Sub(p, 0, 32), Get32(p, 32), Sub(p, 36, 68), Sub(p, 68, 132), Sub(p, 132, |p|)))
      else if kind == ACK then
        if |p| < 4 then None else Some(Ack(Get32(p, 0), if |p| > 4 then Some(p[4]) else None))
      else None
  }

  /** What the senders put in a message: SHA-256 identifiers and hashes, Ed25519 signatures. */
  predicate WellFormed(m: Message) {
    match m
    case Manifest(_) => true
    case Have(f, _) => |f| == 32
    case HavePiece(f, i) => |f| == 32 && i < U32
    case ChunkReq(f, i) => |f| == 32 && i < U32
    case ChunkData(f, i, h, s, _) => |f| == 32 && i < U32 && |h| == 32 && |s| == 64
    case Ack(i, st) => i < U32 && st.Some?
  }

  lemma IndexField(f: bytes, i: nat, rest: bytes)
    requires |f| == 32 && i < U32
    ensures var p := f + Put32(i) + rest;
            p[0..32] == f && Get32(p, 32) == i && p[36..] == rest
  {
    var p := f + Put32(i) + rest;
    assert p[32..36] == Put32(i);
  }

  lemma DataFields(p: bytes, h: bytes, s: bytes, d: bytes)
    requires |p| >= 36 && |h| == 32 && |s| == 64 && p[36..] == h + s + d
    ensures Sub(p, 36, 68) == h && Sub(p, 68, 132) == s && Sub(p, 132, |p|) == d
  {
    var r := p[36..];
    assert p[36..68] == r[..32] && p[68..132] == r[32..96] && p[132..] == r[96..];
  }

  /** Every message a node sends is decoded to itself by its peer. */
  lemma MessageRoundTrip(j: Json, m: Message)
    requires WellFormed(m)
    requires m.Manifest? ==> j.parse(j.text(m.manifest)) == Some(m.manifest)
    ensures Encode(j, m).Some? && Decode(j, Encode(j, m).value) == Some(m)
  {
    var buf := Encode(j, m).value;
    var p := buf[1..];
    match m {
      case Manifest(x) => assert p == j.text(x);
      case Have(f, bits) =>
        assert p == f + bits;
        CutHead(f, bits);
        assert Sub(p, 0, 32) == f && Sub(p, 32, |p|) == bits;
      case HavePiece(f, i) => assert p == f + Put32(i) + []; IndexField(f, i, []);
      case ChunkReq(f, i) => assert p == f + Put32(i) + []; IndexField(f, i, []);
      case ChunkData(f, i, h, s, d) =>
        assert p == f + Put32(i) + (h + s + d);
        IndexField(f, i, h + s + d);
        DataFields(p, h, s, d);
      case Ack(i, st) =>
        assert p == Put32(i) + [st.value] && p[0..4] == Put32(i);
    }
  }
}
