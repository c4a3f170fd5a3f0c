/**
 The PNG chunk writer of the icon generator (scripts/generate-icon-pack.ts) and a reader for
 the layout that section 3.2 of RFC 2083 gives: length, type, data, and a CRC-32 over type
 and data. Numbers are stored most significant byte first.
 */
module PngChunk {
  import opened Wrappers
  import opened Bytes
  import opened Crc32
  import opened Sequences

  datatype Chunk = Chunk(kind: Bytes, data: Bytes)

  // ---------------------------------------------------------------- the checksum of byte strings

  function Checksum(body: Bytes): Word {
    BitSerialCrc(body) as int
  }

  lemma SameWord(a: bv32, b: bv32)
    requires a != b
    ensures a as int != b as int
  {
    assert (a as int) as bv32 == a && (b as int) as bv32 == b;
  }

  // ---------------------------------------------------------------- the format

  predicate Fits(data: Bytes) {
    |data| < 0x1_0000_0000
  }

  predicate WellFormed(c: Chunk) {
    |c.kind| == 4 && Fits(c.data)
  }

  function Frame(length: Word, body: Bytes, checksum: Word): Bytes {
    BigEndian(length) + body + BigEndian(checksum)
  }

  function Encode(c: Chunk): Bytes
    requires Fits(c.data)
  {
    Frame(|c.data|, c.kind + c.data, Checksum(c.kind + c.data))
  }

  datatype Framed = Framed(body: Bytes, checksum: nat, rest: Bytes)

  /** Cuts one frame off the front of a stream that is long enough to hold it. */
  function CutFrame(stream: Bytes): (f: Option<Framed>)
    ensures f.Some? ==> 4 <= |f.value.body| && |f.value.rest| < |stream|
  {
    if |stream| < 12 then None else
    var n := FromBigEndian(stream[..4]);
    if |stream| < 12 + n then None else
    Some(Framed(stream[4..8 + n], FromBigEndian(stream[8 + n..12 + n]), stream[12 + n..]))
  }

  /** Reads one chunk off the front of a stream; refuses a short stream or a bad CRC. */
  function ReadChunk(stream: Bytes): Option<(Chunk, Bytes)> {
    match CutFrame(stream)
    case None => None
    case Some(Framed(body, checksum, rest)) =>
      if checksum != Checksum(body) then None else Some((Chunk(body[..4], body[4..]), rest))
  }

  function EncodeAll(chunks: seq<Chunk>): Bytes
    requires forall c :: c in chunks ==> WellFormed(c)
  {
    if chunks == [] then [] else
    assert WellFormed(chunks[0]);
    Encode(chunks[0]) + EncodeAll(chunks[1..])
  }

  function ReadAll(stream: Bytes): Option<seq<Chunk>>
    decreases |stream|
  {
    if stream == [] then Some([]) else
    match ReadChunk(stream)
    case None => None
    case Some((c, rest)) =>
      match ReadAll(rest)
      case None => None
      case Some(cs) => Some([c] + cs)
  }

  // ---------------------------------------------------------------- round trip and detection

  lemma CutOfFrame(body: Bytes, checksum: Word, rest: Bytes)
    requires 4 <= |body| && |body| - 4 < 0x1_0000_0000
    ensures CutFrame(Frame(|body| - 4, body, checksum) + rest) == Some(Framed(body, checksum, rest))
  {
    BigEndianRoundTrip(|body| - 4);
    BigEndianRoundTrip(checksum);
    FourParts(BigEndian(|body| - 4), body, BigEndian(checksum), rest);
  }

  lemma ReadFrame(body: Bytes, checksum: Word, rest: Bytes)
    requires 4 <= |body| && |body| - 4 < 0x1_0000_0000
    ensures ReadChunk(Frame(|body| - 4, body, checksum) + rest)
         == if checksum == Checksum(body) then Some((Chunk(body[..4], body[4..]), rest)) else None
  {
    CutOfFrame(body, checksum, rest);
  }

  lemma ChunkRoundTrip(c: Chunk, rest: Bytes)
    requires WellFormed(c)
    ensures ReadChunk(Encode(c) + rest) == Some((c, rest))
  {
    var body := c.kind + c.data;
    ReadFrame(body, Checksum(body), rest);
    assert body[..4] == c.kind && body[4..] == c.data;
  }

  /** A written stream of chunks reads back as exactly those chunks. */
  lemma {:induction false} StreamRoundTrip(chunks: seq<Chunk>)
    requires forall c :: c in chunks ==> WellFormed(c)
    ensures ReadAll(EncodeAll(chunks)) == Some(chunks)
  {
    if chunks != [] {
      ChunkRoundTrip(chunks[0], EncodeAll(chunks[1..]));
      StreamRoundTrip(chunks[1..]);
      assert chunks == [chunks[0]] + chunks[1..];
    }
  }

  /**
   Damage confined to 32 consecutive bits of a chunk's type and data is always refused,
   whatever follows the chunk.
   */
  lemma DamageRefused(c: Chunk, damaged: Bytes, start: nat, rest: Bytes)
    requires WellFormed(c)
    requires |damaged| == |c.kind + c.data| && damaged != c.kind + c.data && start <= 8 * |damaged|
    requires forall i :: 0 <= i < 8 * |damaged| && !(start <= i < start + 32) ==>
               MessageBits(damaged)[i] == MessageBits(c.kind + c.data)[i]
    ensures ReadChunk(Frame(|c.data|, damaged, Checksum(c.kind + c.data)) + rest) == None
  {
    var body := c.kind + c.data;
    BurstDetected(damaged, body, start);
    SameWord(BitSerialCrc(damaged), BitSerialCrc(body));
    ReadFrame(damaged, Checksum(body), rest);
  }

  // ---------------------------------------------------------------- the writer

  /** Stores a number into four bytes of a buffer; a number that needs more is a RangeError. */
  method WriteUInt32BE(buffer: array<Byte>, value: nat, offset: nat) returns (ok: bool)
    requires offset + 4 <= buffer.Length
    modifies buffer
    ensures ok <==> value < 0x1_0000_0000
    ensures ok ==> buffer[..] == old(buffer[..offset]) + BigEndian(value) + old(buffer[offset + 4..])
    ensures !ok ==> buffer[..] == old(buffer[..])
  {
    if value >= 0x1_0000_0000 {
      return false;
    }
    var bytes := BigEndian(value);
    buffer[offset] := bytes[0];
    buffer[offset + 1] := bytes[1];
    buffer[offset + 2] := bytes[2];
    buffer[offset + 3] := bytes[3];
    return true;
  }

  method WriteChunk(crc: TableCrc, kind: Bytes, data: Bytes) returns (chunk: Option<Bytes>)
    requires crc.Valid()
    modifies crc
    ensures crc.Valid()
    ensures chunk == if Fits(data) then Some(Encode(Chunk(kind, data))) else None
  {
    var length := new Byte[4];
    var ok := WriteUInt32BE(length, |data|, 0);
    if !ok {
      return None;
    }
    var body := kind + data;
    var trailer := new Byte[4];
    var checksum := crc.Crc32(body);
    var stored := WriteUInt32BE(trailer, checksum as int, 0);
    assert length[..] == BigEndian(|data|) && trailer[..] == BigEndian(Checksum(body));
    return Some(length[..] + body + trailer[..]);
  }
}
