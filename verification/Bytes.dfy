/** Byte strings, and the 32-bit numbers stored in them in either byte order. */
module Bytes {

  type Byte = n: int | 0 <= n < 256

  type Bytes = seq<Byte>

  type Word = n: int | 0 <= n < 0x1_0000_0000

  function BigEndian(v: Word): (bytes: Bytes)
    ensures |bytes| == 4
  {
    var low := v / 256;
    var mid := low / 256;
    [mid / 256, mid % 256, low % 256, v % 256]
  }

  function FromBigEndian(bytes: Bytes): Word
    requires |bytes| == 4
  {
    (((bytes[0] as int) * 256 + bytes[1] as int) * 256 + bytes[2] as int) * 256 + bytes[3] as int
  }

  function LittleEndian(v: Word): (bytes: Bytes)
    ensures |bytes| == 4
  {
    var low := v / 256;
    var mid := low / 256;
    [v % 256, low % 256, mid % 256, mid / 256]
  }

  function FromLittleEndian(bytes: Bytes): Word
    requires |bytes| == 4
  {
    bytes[0] as int + 256 * (bytes[1] as int + 256 * (bytes[2] as int + 256 * (bytes[3] as int)))
  }

  lemma BigEndianRoundTrip(v: Word)
    ensures FromBigEndian(BigEndian(v)) == v
  {
  }

  lemma LittleEndianRoundTrip(v: Word)
    ensures FromLittleEndian(LittleEndian(v)) == v
  {
  }
}
