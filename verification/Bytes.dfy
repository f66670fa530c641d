/**
 Fixed-width integers and their little-endian byte form.
 A width is written out as a subset type; nothing here wraps.
 */
module Bytes {

  type byte = x: int | 0 <= x < 0x100
  type u16 = x: int | 0 <= x < 0x1_0000
  type u32 = x: int | 0 <= x < 0x1_0000_0000
  type i16 = x: int | -0x8000 <= x < 0x8000

  function LeU16(v: u16): (bytes: seq<byte>)
    ensures |bytes| == 2
  {
    [v % 0x100, v / 0x100]
  }

  function ReadLeU16(bytes: seq<byte>): u16
    requires |bytes| == 2
  {
    (bytes[0] as int) + 0x100 * (bytes[1] as int)
  }

  function LeU32(v: u32): (bytes: seq<byte>)
    ensures |bytes| == 4
  {
    [v % 0x100, v / 0x100 % 0x100, v / 0x1_0000 % 0x100, v / 0x100_0000]
  }

  function ReadLeU32(bytes: seq<byte>): u32
    requires |bytes| == 4
  {
    (bytes[0] as int) + 0x100 * (bytes[1] as int)
    + 0x1_0000 * (bytes[2] as int) + 0x100_0000 * (bytes[3] as int)
  }

  /** Two's complement. */
  function LeI16(v: i16): (bytes: seq<byte>)
    ensures |bytes| == 2
  {
    LeU16(if v < 0 then v + 0x1_0000 else v)
  }

  function ReadLeI16(bytes: seq<byte>): i16
    requires |bytes| == 2
  {
    var v := ReadLeU16(bytes);
    if v >= 0x8000 then v - 0x1_0000 else v
  }

  lemma ReadLeU32OfLeU32(v: u32)
    ensures ReadLeU32(LeU32(v)) == v
  {
    assert v / 0x1_0000 == v / 0x100 / 0x100;
    assert v / 0x100_0000 == v / 0x100 / 0x100 / 0x100;
  }

  /** The little-endian bytes of a run of samples. */
  function SamplesToBytes(samples: seq<i16>): (bytes: seq<byte>)
    ensures |bytes| == 2 * |samples|
  {
    seq(2 * |samples|, i requires 0 <= i < 2 * |samples| => LeI16(samples[i / 2])[i % 2])
  }

  /** The samples of a run of bytes; an odd last byte is ignored. */
  function BytesToSamples(bytes: seq<byte>): (samples: seq<i16>)
    ensures |samples| == |bytes| / 2
  {
    seq(|bytes| / 2, i requires 0 <= i < |bytes| / 2 => ReadLeI16(bytes[2 * i..2 * i + 2]))
  }

  lemma BytesToSamplesOfSamplesToBytes(samples: seq<i16>)
    ensures BytesToSamples(SamplesToBytes(samples)) == samples
  {
    var bytes := SamplesToBytes(samples);
    forall i | 0 <= i < |samples|
      ensures BytesToSamples(bytes)[i] == samples[i]
    {
      assert (2 * i) / 2 == i && (2 * i + 1) / 2 == i && (2 * i) % 2 == 0 && (2 * i + 1) % 2 == 1;
      assert bytes[2 * i..2 * i + 2] == LeI16(samples[i]);
    }
  }

  lemma LeI16OfReadLeI16(two: seq<byte>)
    requires |two| == 2
    ensures LeI16(ReadLeI16(two)) == two
  {
  }

  lemma SamplesToBytesOfBytesToSamples(bytes: seq<byte>)
    requires |bytes| % 2 == 0
    ensures SamplesToBytes(BytesToSamples(bytes)) == bytes
  {
    var samples := BytesToSamples(bytes);
    forall i | 0 <= i < |bytes|
      ensures SamplesToBytes(samples)[i] == bytes[i]
    {
      var two := bytes[2 * (i / 2)..2 * (i / 2) + 2];
      assert samples[i / 2] == ReadLeI16(two);
      LeI16OfReadLeI16(two);
      assert two[i % 2] == bytes[i];
    }
  }

  method I16SamplesToLeBytes(samples: seq<i16>) returns (bytes: seq<byte>)
    ensures bytes == SamplesToBytes(samples)
    ensures BytesToSamples(bytes) == samples
  {
    bytes := [];
    for n := 0 to |samples|
      invariant bytes == SamplesToBytes(samples[..n])
    {
      bytes := bytes + LeI16(samples[n]);
    }
    assert samples[..|samples|] == samples;
    BytesToSamplesOfSamplesToBytes(samples);
  }
}
