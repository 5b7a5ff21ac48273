/**
 * Byte decoding: a buffer of signed 16-bit little-endian PCM becomes a sequence of
 * normalized samples, after an optional fixed skip when the buffer starts with the
 * EBML Element ID (section 11.2.1 of RFC 8794), i.e. an untranscoded WebM container.
 */
module Pcm {
  import opened Wrappers

  newtype byte = b: int | 0 <= b < 256

  type int16 = v: int | -32768 <= v < 32768

  /** The four-byte EBML Element ID that opens a Matroska/WebM file. */
  const EbmlMagic: seq<byte> := [0x1A, 0x45, 0xDF, 0xA3]

  /** Bytes skipped when the EBML magic is seen; a guess, not a parsed header size. */
  const HeaderSkip: nat := 4000

  /** Divisor that maps an int16 into [-1, 1). */
  const FullScale: real := 32768.0

  /** `new Float32Array(n)` with negative `n` throws a RangeError. */
  datatype DecodeError = NegativeSampleCount

  predicate HasEbmlMagic(buf: seq<byte>)
  {
    |buf| >= 4 && buf[..4] == EbmlMagic
  }

  function HeaderOffset(buf: seq<byte>): (off: nat)
    ensures off == HeaderSkip <==> HasEbmlMagic(buf)
    ensures off == 0 <==> !HasEbmlMagic(buf)
  {
    if HasEbmlMagic(buf) then HeaderSkip else 0
  }

  /** `Math.floor((length - offset) / 2)`; negative when a tagged buffer is shorter than the skip. */
  function SampleCount(buf: seq<byte>): (n: int)
    ensures 2 * n <= |buf| - HeaderOffset(buf) < 2 * n + 2
    ensures n < 0 <==> HasEbmlMagic(buf) && |buf| < HeaderSkip
  {
    (|buf| - HeaderOffset(buf)) / 2
  }

  /** `readInt16LE`: the two's-complement value whose low byte comes first. */
  function Int16LE(lo: byte, hi: byte): (v: int16)
    ensures (v - (lo as int + 256 * hi as int)) % 65536 == 0
  {
    var u := lo as int + 256 * hi as int;
    if u < 32768 then u else u - 65536
  }

  /** The little-endian byte pair of a 16-bit sample (the encoder a recorder applies). */
  function Int16Bytes(v: int16): (b: (byte, byte))
    ensures Int16LE(b.0, b.1) == v
  {
    var u := if v < 0 then v + 65536 else v;
    ((u % 256) as byte, (u / 256) as byte)
  }

  /** Reading a byte pair and writing it back gives the same bytes. */
  lemma Int16BytesOfInt16LE(lo: byte, hi: byte)
    ensures Int16Bytes(Int16LE(lo, hi)) == (lo, hi)
  {
  }

  function Normalize(v: int16): (x: real)
    ensures -1.0 <= x < 1.0
  {
    v as real / FullScale
  }

  function SampleAt(buf: seq<byte>, pos: nat): real
    requires pos + 1 < |buf|
  {
    Normalize(Int16LE(buf[pos], buf[pos + 1]))
  }

  /**
   * The samples the analyzer works on: `SampleCount` of them, sample `i` read at
   * `offset + 2 * i`; an odd trailing byte is ignored.
   */
  function Decode(buf: seq<byte>): (r: Result<seq<real>, DecodeError>)
    ensures r.Failure? <==> HasEbmlMagic(buf) && |buf| < HeaderSkip
    ensures r.Success? ==> |r.value| == SampleCount(buf)
    ensures r.Success? ==> forall i :: 0 <= i < |r.value| ==> -1.0 <= r.value[i] < 1.0
  {
    var off := HeaderOffset(buf);
    var n := SampleCount(buf);
    if n < 0 then Failure(NegativeSampleCount)
    else Success(seq(n, i requires 0 <= i < n => SampleAt(buf, off + 2 * i)))
  }

  /** Raw PCM for a sequence of 16-bit samples, little-endian, no header. */
  function EncodePcm(vs: seq<int16>): (buf: seq<byte>)
  {
    seq(2 * |vs|, j requires 0 <= j < 2 * |vs| =>
      if j % 2 == 0 then Int16Bytes(vs[j / 2]).0 else Int16Bytes(vs[j / 2]).1)
  }

  function NormalizeAll(vs: seq<int16>): seq<real>
  {
    seq(|vs|, i requires 0 <= i < |vs| => Normalize(vs[i]))
  }

  /** Decoding `bytes` read from position `off` recovers every encoded sample. */
  lemma DecodeFrom(buf: seq<byte>, off: nat, vs: seq<int16>)
    requires off + 2 * |vs| == |buf|
    requires buf[off..] == EncodePcm(vs)
    ensures forall i :: 0 <= i < |vs| ==> SampleAt(buf, off + 2 * i) == Normalize(vs[i])
  {
    forall i | 0 <= i < |vs|
      ensures SampleAt(buf, off + 2 * i) == Normalize(vs[i])
    {
      var e := EncodePcm(vs);
      assert buf[off + 2 * i] == e[2 * i];
      assert buf[off + 2 * i + 1] == e[2 * i + 1];
      assert (2 * i) / 2 == i && (2 * i) % 2 == 0;
      assert (2 * i + 1) / 2 == i && (2 * i + 1) % 2 == 1;
    }
  }

  /** Whatever follows the offset decodes to exactly the samples it encodes. */
  lemma DecodeAfterOffset(buf: seq<byte>, vs: seq<int16>)
    requires HeaderOffset(buf) + 2 * |vs| == |buf|
    requires buf[HeaderOffset(buf)..] == EncodePcm(vs)
    ensures Decode(buf) == Success(NormalizeAll(vs))
  {
    var off := HeaderOffset(buf);
    var n := |vs|;
    assert (2 * n) / 2 == n;
    assert SampleCount(buf) == n;
    var d := seq(n, i requires 0 <= i < n => SampleAt(buf, off + 2 * i));
    assert Decode(buf) == Success(d);
    DecodeFrom(buf, off, vs);
    assert d == NormalizeAll(vs);
  }

  /** Headerless PCM decodes to exactly the samples it encodes, unless it happens to start with the magic. */
  lemma DecodeEncodePcm(vs: seq<int16>)
    requires !HasEbmlMagic(EncodePcm(vs))
    ensures Decode(EncodePcm(vs)) == Success(NormalizeAll(vs))
  {
    var buf := EncodePcm(vs);
    assert buf[0..] == buf;
    DecodeAfterOffset(buf, vs);
  }

  /** A tagged buffer loses exactly its first 4000 bytes: whatever follows them decodes intact. */
  lemma DecodeSkipsHeader(filler: seq<byte>, vs: seq<int16>)
    requires |filler| == HeaderSkip - |EbmlMagic|
    ensures Decode(EbmlMagic + filler + EncodePcm(vs)) == Success(NormalizeAll(vs))
  {
    var buf := EbmlMagic + filler + EncodePcm(vs);
    assert buf[..4] == EbmlMagic;
    assert buf[HeaderSkip..] == EncodePcm(vs);
    DecodeAfterOffset(buf, vs);
  }

  /**
   * Two ordinary samples, 17690 then -23585, encode to the EBML magic: such raw PCM is
   * taken for a container, and when it is shorter than 4000 bytes decoding fails.
   */
  lemma MagicCollision()
    ensures EncodePcm([17690, -23585]) == EbmlMagic
    ensures Decode(EncodePcm([17690, -23585])).Failure?
  {
    var e := EncodePcm([17690, -23585]);
    assert e[0] == 0x1A && e[1] == 0x45 && e[2] == 0xDF && e[3] == 0xA3;
  }
}
