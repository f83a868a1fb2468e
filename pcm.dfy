/**
 * The audio buffer `ProcessFile` hands to the engine: the file's bytes
 * (`ds_audio_buffer`, whose `buffer_size` counts bytes) read as 16-bit
 * little-endian samples, `buffer_size / 2` of them.
 */
module Pcm {
  import opened Common

  /** One little-endian two's-complement sample from its low and high byte. */
  function Sample16(lo: byte, hi: byte): int16
  {
    var v := lo as int + 0x100 * hi as int;
    (if v >= 0x8000 then v - 0x1_0000 else v) as int16
  }

  /** The bytes as samples; an odd trailing byte is not part of any sample. */
  function Samples(bytes: seq<byte>): (ss: seq<int16>)
    ensures |ss| == |bytes| / 2
    ensures forall i :: 0 <= i < |ss| ==> ss[i] == Sample16(bytes[2 * i], bytes[2 * i + 1])
  {
    seq(|bytes| / 2, i requires 0 <= i < |bytes| / 2 => Sample16(bytes[2 * i], bytes[2 * i + 1]))
  }

  function Low(s: int16): byte { ((s as int % 0x1_0000) % 0x100) as byte }

  function High(s: int16): byte { ((s as int % 0x1_0000) / 0x100) as byte }

  /** Samples written little-endian, two bytes each. */
  function Bytes(ss: seq<int16>): (bs: seq<byte>)
    ensures |bs| == 2 * |ss|
    ensures forall i :: 0 <= i < |ss| ==> bs[2 * i] == Low(ss[i]) && bs[2 * i + 1] == High(ss[i])
  {
    seq(2 * |ss|, i requires 0 <= i < 2 * |ss| => if i % 2 == 0 then Low(ss[i / 2]) else High(ss[i / 2]))
  }

  /** A sample's two bytes read back give the sample. */
  lemma SampleRoundTrip(s: int16)
    ensures Sample16(Low(s), High(s)) == s
  {
    var u := s as int % 0x1_0000;
    assert u == if s >= 0 then s as int else s as int + 0x1_0000;
    assert Low(s) as int + 0x100 * High(s) as int == u;
  }

  /** Reading written samples gives them back. */
  lemma SamplesOfBytes(ss: seq<int16>)
    ensures Samples(Bytes(ss)) == ss
  {
    var bs := Bytes(ss);
    forall i | 0 <= i < |ss|
      ensures Samples(bs)[i] == ss[i]
    {
      SampleRoundTrip(ss[i]);
    }
  }

  /** The bytes of a sample read from two bytes are those two bytes. */
  lemma BytesRoundTrip(lo: byte, hi: byte)
    ensures Low(Sample16(lo, hi)) == lo && High(Sample16(lo, hi)) == hi
  {
    var v := lo as int + 0x100 * hi as int;
    var s := Sample16(lo, hi);
    assert s as int % 0x1_0000 == v;
    assert v % 0x100 == lo as int && v / 0x100 == hi as int;
  }

  /** Writing read samples gives back the bytes, less an odd trailing one. */
  lemma BytesOfSamples(bytes: seq<byte>)
    ensures Bytes(Samples(bytes)) == bytes[..2 * (|bytes| / 2)]
  {
    var ss := Samples(bytes);
    var bs := Bytes(ss);
    forall j | 0 <= j < |bs|
      ensures bs[j] == bytes[j]
    {
      var i := j / 2;
      BytesRoundTrip(bytes[2 * i], bytes[2 * i + 1]);
      if j % 2 == 0 {
        assert j == 2 * i && bs[2 * i] == Low(ss[i]);
      } else {
        assert j == 2 * i + 1 && bs[2 * i + 1] == High(ss[i]);
      }
    }
  }
}
