// 16-bit PCM: little-endian bytes, and frames for the voice codec.
module Pcm {

  type Byte = b: int | 0 <= b < 256
  type Sample = s: int | -0x8000 <= s < 0x8000

  const FRAME_SAMPLES: nat := 960

  /** `i16::to_le_bytes`. */
  function SampleBytes(s: Sample): (bytes: seq<Byte>)
    ensures |bytes| == 2
  {
    var u := if s < 0 then s + 0x1_0000 else s;
    [u % 256, u / 256]
  }

  /** `i16::from_le_bytes`. */
  function SampleOf(lo: Byte, hi: Byte): Sample {
    var u := lo + 256 * hi;
    if u >= 0x8000 then u - 0x1_0000 else u
  }

  lemma SampleRoundTrip(s: Sample, lo: Byte, hi: Byte)
    ensures SampleOf(SampleBytes(s)[0], SampleBytes(s)[1]) == s
    ensures SampleBytes(SampleOf(lo, hi)) == [lo, hi]
  {
  }

  /** The low byte comes first: the two bytes, low plus 256 times high, are the
      sample in two's complement. */
  lemma LittleEndian(s: Sample, lo: Byte, hi: Byte)
    ensures SampleBytes(s)[0] as int + 0x100 * SampleBytes(s)[1] as int == if s >= 0 then s else 0x1_0000 + s
    ensures SampleOf(lo, hi) == lo as int + 0x100 * hi as int - if hi < 0x80 then 0 else 0x1_0000
  {
  }

  function Encode(samples: seq<Sample>): (bytes: seq<Byte>)
    ensures |bytes| == 2 * |samples|
  {
    if samples == [] then [] else Encode(samples[..|samples| - 1]) + SampleBytes(samples[|samples| - 1])
  }

  /** Every whole pair of bytes, in order. */
  function Decode(bytes: seq<Byte>): (samples: seq<Sample>)
    ensures |samples| == |bytes| / 2
  {
    var n := |bytes| / 2;
    if n == 0 then [] else Decode(bytes[..2 * (n - 1)]) + [SampleOf(bytes[2 * n - 2], bytes[2 * n - 1])]
  }

  /** Reading what was written gives the samples back, and writing what was read
      gives the bytes back but for an odd last one. */
  lemma {:induction false} DecodeEncode(samples: seq<Sample>)
    ensures Decode(Encode(samples)) == samples
  {
    if samples != [] {
      var n := |samples| - 1;
      var init, bytes := samples[..n], Encode(samples);
      DecodeEncode(init);
      SampleRoundTrip(samples[n], 0, 0);
      assert bytes[..2 * n] == Encode(init);
      assert bytes[2 * n] == SampleBytes(samples[n])[0] && bytes[2 * n + 1] == SampleBytes(samples[n])[1];
    }
  }

  lemma {:induction false} EncodeDecode(bytes: seq<Byte>)
    ensures Encode(Decode(bytes)) == bytes[..2 * (|bytes| / 2)]
  {
    var n := |bytes| / 2;
    if n > 0 {
      var init := bytes[..2 * (n - 1)];
      EncodeDecode(init);
      SampleRoundTrip(0, bytes[2 * n - 2], bytes[2 * n - 1]);
      assert Decode(bytes)[..n - 1] == Decode(init);
      assert init[..2 * (|init| / 2)] == init;
      assert bytes[..2 * n] == init + [bytes[2 * n - 2], bytes[2 * n - 1]];
    }
  }

  /** The loop over the decoder's output. */
  method ReadSamples(buf: seq<Byte>) returns (samples: seq<Sample>)
    ensures samples == Decode(buf)
    ensures Encode(samples) == buf[..2 * (|buf| / 2)]
  {
    samples := [];
    for i := 0 to |buf| / 2
      invariant samples == Decode(buf[..2 * i])
    {
      assert buf[..2 * (i + 1)][..2 * i] == buf[..2 * i];
      samples := samples + [SampleOf(buf[2 * i], buf[2 * i + 1])];
    }
    EncodeDecode(buf);
    EncodeDecode(buf[..2 * (|buf| / 2)]);
    SameDecode(buf);
  }

  lemma SameDecode(buf: seq<Byte>)
    ensures Decode(buf[..2 * (|buf| / 2)]) == Decode(buf)
  {
    var n := |buf| / 2;
    var even := buf[..2 * n];
    if n > 0 {
      assert even[..2 * (n - 1)] == buf[..2 * (n - 1)];
    }
  }

  // ---- Frames ----

  function Zeros(n: nat): (z: seq<Sample>)
    ensures |z| == n && forall i :: 0 <= i < n ==> z[i] == 0
  {
    seq(n, _ => 0)
  }

  function Flatten(frames: seq<seq<Sample>>): seq<Sample> {
    if frames == [] then [] else Flatten(frames[..|frames| - 1]) + frames[|frames| - 1]
  }

  /** The framing of the silence prefix and the speech: full frames only, as many
      as it takes, holding all samples in order and fewer than a frame of zeros. */
  method Frames(silence: seq<Sample>, pcm: seq<Sample>) returns (frames: seq<seq<Sample>>)
    ensures forall i :: 0 <= i < |frames| ==> |frames[i]| == FRAME_SAMPLES
    ensures var total := |silence| + |pcm|;
      && |frames| == (total + FRAME_SAMPLES - 1) / FRAME_SAMPLES
      && |frames| * FRAME_SAMPLES - total < FRAME_SAMPLES
    ensures exists pad: nat :: pad < FRAME_SAMPLES && Flatten(frames) == silence + pcm + Zeros(pad)
  {
    var full := silence + pcm;
    var rem := |full| % FRAME_SAMPLES;
    ghost var pad := 0;
    if rem != 0 {
      pad := FRAME_SAMPLES - rem;
      full := full + seq(FRAME_SAMPLES - rem, _ => 0);
    }
    assert full == silence + pcm + Zeros(pad);
    frames := [];
    var count := |full| / FRAME_SAMPLES;
    for k := 0 to count
      invariant |frames| == k && (forall i :: 0 <= i < k ==> |frames[i]| == FRAME_SAMPLES)
      invariant Flatten(frames) == full[..k * FRAME_SAMPLES]
    {
      var chunk := full[k * FRAME_SAMPLES..(k + 1) * FRAME_SAMPLES];
      assert (frames + [chunk])[..k] == frames;
      assert full[..(k + 1) * FRAME_SAMPLES] == full[..k * FRAME_SAMPLES] + chunk;
      frames := frames + [chunk];
    }
    assert full[..count * FRAME_SAMPLES] == full;
  }
}
