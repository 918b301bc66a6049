/** UUID helpers: the 16-byte layout LiftLog stores identifiers in. */
module Guids {
  import opened Seqs

  type Byte = b: int | 0 <= b < 256

  /** The 16 bytes of a UUID in standard (RFC 4122, big-endian) order. */
  type Uuid = s: seq<Byte> | |s| == 16 witness seq(16, i => 0)

  /**
   * The byte order of .NET's `Guid.ToByteArray()`: the first three groups of the
   * identifier (4, 2 and 2 bytes) are stored little-endian, so each of them is
   * reversed, and the last 8 bytes are kept as they are.
   */
  function UuidToGuidBytes(b: Uuid): (r: Uuid)
    ensures r[..4] == Reverse(b[..4])
    ensures r[4..6] == Reverse(b[4..6])
    ensures r[6..8] == Reverse(b[6..8])
    ensures r[8..] == b[8..]
  {
    [b[3], b[2], b[1], b[0],
     b[5], b[4],
     b[7], b[6],
     b[8], b[9], b[10], b[11], b[12], b[13], b[14], b[15]]
  }

  /** Swapping the byte order twice gives back the original identifier. */
  lemma GuidBytesInvolution(b: Uuid)
    ensures UuidToGuidBytes(UuidToGuidBytes(b)) == b
  {
    var r := UuidToGuidBytes(UuidToGuidBytes(b));
    assert forall i :: 0 <= i < 16 ==> r[i] == b[i];
  }

  /** The layout change only moves bytes: it is a permutation of the input. */
  lemma GuidBytesPermutation(b: Uuid)
    ensures multiset(UuidToGuidBytes(b)) == multiset(b)
  {
    var r := UuidToGuidBytes(b);
    assert b == b[..4] + b[4..6] + b[6..8] + b[8..];
    assert r == r[..4] + r[4..6] + r[6..8] + r[8..];
    ReverseMultiset(b[..4]);
    ReverseMultiset(b[4..6]);
    ReverseMultiset(b[6..8]);
  }
}
