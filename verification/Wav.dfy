// The WAV file built for a recording, and a reader of RIFF/WAVE files.
module Wav {
  import opened Wrappers
  import opened Pcm

  const TWO_32: nat := 0x1_0000_0000

  function Le16(n: nat): (b: seq<Byte>)
    requires n < 0x1_0000
    ensures |b| == 2
  {
    [n % 256, n / 256]
  }

  function Le32(n: nat): (b: seq<Byte>)
    requires n < TWO_32
    ensures |b| == 4
  {
    [n % 256, n / 256 % 256, n / 0x1_0000 % 256, n / 0x100_0000]
  }

  function Read16(b: seq<Byte>): nat
    requires |b| == 2
  {
    b[0] as int + 256 * (b[1] as int)
  }

  function Read32(b: seq<Byte>): nat
    requires |b| == 4
  {
    b[0] as int + 256 * (b[1] as int) + 0x1_0000 * (b[2] as int) + 0x100_0000 * (b[3] as int)
  }

  lemma Le32RoundTrip(n: nat)
    requires n < TWO_32
    ensures Read32(Le32(n)) == n
  {
    var b, c, d := n / 256, n / 0x1_0000, n / 0x100_0000;
    assert n == 256 * b + n % 256;
    assert b == 256 * c + b % 256;
    assert c == 256 * d + c % 256;
  }

  lemma Le16RoundTrip(n: nat)
    requires n < 0x1_0000
    ensures Read16(Le16(n)) == n
  {
  }

  // The four-character codes, as ASCII bytes.
  const RIFF: seq<Byte> := [0x52, 0x49, 0x46, 0x46]
  const WAVE: seq<Byte> := [0x57, 0x41, 0x56, 0x45]
  const FMT: seq<Byte> := [0x66, 0x6D, 0x74, 0x20]
  const DATA: seq<Byte> := [0x64, 0x61, 0x74, 0x61]

  /** The `fmt ` payload: PCM, 1 channel, 16 kHz, 32000 bytes a second, 2-byte blocks, 16 bits. */
  const FORMAT: seq<Byte> := Le16(1) + Le16(1) + Le32(16_000) + Le32(32_000) + Le16(2) + Le16(16)

  /** `build_wav_pcm16_mono_16khz`, with the 32-bit lengths cut as the source cuts them. */
  method BuildWav(samples: seq<Sample>) returns (buf: seq<Byte>)
    ensures buf == WavFile(samples)
  {
    var sampleRate, channels, bitsPerSample := 16_000, 1, 16;
    var byteRate := sampleRate * (bitsPerSample / 8) * channels;
    var blockAlign := channels * bitsPerSample / 8;
    var dataLen := (|samples| * 2) % TWO_32;
    var riffLen := (36 + dataLen) % TWO_32;
    buf := RIFF;
    buf := buf + Le32(riffLen);
    buf := buf + WAVE + FMT + Le32(16);
    buf := buf + Le16(1) + Le16(channels) + Le32(sampleRate) + Le32(byteRate) + Le16(blockAlign) + Le16(bitsPerSample);
    buf := buf + DATA + Le32(dataLen);
    assert buf == File(riffLen, Body(dataLen, []));
    var header := buf;
    for i := 0 to |samples|
      invariant buf == header + Encode(samples[..i])
    {
      assert samples[..i + 1][..i] == samples[..i];
      buf := buf + SampleBytes(samples[i]);
    }
    assert samples[..|samples|] == samples;
    assert header + Encode(samples) == File(riffLen, Body(dataLen, Encode(samples)));
  }

  /** The length of the data as a u32. */
  function DataLen(n: nat): (len: nat)
    ensures len < TWO_32 && (2 * n < TWO_32 ==> len == 2 * n)
  {
    2 * n % TWO_32
  }

  /** The length after the RIFF header as a u32: right iff it fits. */
  function RiffLen(n: nat): (len: nat)
    ensures len < TWO_32 && (len == 36 + 2 * n <==> 36 + 2 * n < TWO_32)
  {
    (36 + DataLen(n)) % TWO_32
  }

  function WavFile(samples: seq<Sample>): seq<Byte> {
    File(RiffLen(|samples|), Body(DataLen(|samples|), Encode(samples)))
  }

  function File(riffLen: nat, body: seq<Byte>): seq<Byte>
    requires riffLen < TWO_32
  {
    RIFF + Le32(riffLen) + WAVE + body
  }

  function Body(dataLen: nat, data: seq<Byte>): seq<Byte>
    requires dataLen < TWO_32
  {
    FMT + Le32(16) + FORMAT + (DATA + Le32(dataLen) + data)
  }

  // ---- Reading RIFF/WAVE ----

  datatype Chunk = Chunk(id: seq<Byte>, body: seq<Byte>)

  datatype Audio = Audio(rate: nat, channels: nat, bits: nat, samples: seq<Sample>)

  /** Chunks one after the other: an id, a length, that many bytes, and a pad byte when the length is odd. */
  function ReadChunks(b: seq<Byte>): Option<seq<Chunk>>
    decreases |b|
  {
    if b == [] then Some([])
    else if |b| < 8 then None
    else
      var size := Read32(b[4..8]);
      var end := 8 + size + size % 2;
      if |b| < end then None
      else
        match ReadChunks(b[end..])
        case None => None
        case Some(more) => Some([Chunk(b[..4], b[8..8 + size])] + more)
  }

  /** A file that is one RIFF chunk of form WAVE, exactly as long as it says. */
  function ReadRiff(b: seq<Byte>): Option<seq<Chunk>> {
    if |b| < 12 || b[..4] != RIFF || b[8..12] != WAVE || Read32(b[4..8]) != |b| - 8 then None
    else ReadChunks(b[12..])
  }

  /** Uncompressed 16-bit audio with consistent rate fields. */
  function ReadWav(b: seq<Byte>): Option<Audio> {
    match ReadRiff(b)
    case None => None
    case Some(chunks) =>
      if |chunks| != 2 || chunks[0].id != FMT || |chunks[0].body| != 16 || chunks[1].id != DATA then None
      else
        var f := chunks[0].body;
        var channels, rate, bits := Read16(f[2..4]), Read32(f[4..8]), Read16(f[14..16]);
        if Read16(f[..2]) != 1 || bits != 16 || Read32(f[8..12]) != rate * channels * 2
           || Read16(f[12..14]) != channels * 2 || |chunks[1].body| % 2 != 0
        then None
        else Some(Audio(rate, channels, bits, Decode(chunks[1].body)))
  }

  lemma ChunkReadsFirst(id: seq<Byte>, body: seq<Byte>, rest: seq<Byte>)
    requires |id| == 4 && |body| < TWO_32 && |body| % 2 == 0
    ensures ReadChunks(id + Le32(|body|) + body + rest) ==
      (if ReadChunks(rest).None? then None else Some([Chunk(id, body)] + ReadChunks(rest).value))
  {
    var b := id + Le32(|body|) + body + rest;
    Le32RoundTrip(|body|);
    assert b[..4] == id && b[4..8] == Le32(|body|);
    assert b[8..8 + |body|] == body && b[8 + |body|..] == rest;
  }

  lemma FormatFields()
    ensures |FORMAT| == 16
    ensures Read16(FORMAT[..2]) == 1 && Read16(FORMAT[2..4]) == 1 && Read32(FORMAT[4..8]) == 16_000
    ensures Read32(FORMAT[8..12]) == 32_000 && Read16(FORMAT[12..14]) == 2 && Read16(FORMAT[14..16]) == 16
  {
    Le32RoundTrip(16_000);
    Le32RoundTrip(32_000);
    assert FORMAT[4..8] == Le32(16_000) && FORMAT[8..12] == Le32(32_000);
  }

  /** The body reads as its two chunks when the data length is right. */
  lemma BodyReads(data: seq<Byte>)
    requires |data| < TWO_32 && |data| % 2 == 0
    ensures ReadChunks(Body(|data|, data)) == Some([Chunk(FMT, FORMAT), Chunk(DATA, data)])
  {
    hide ReadChunks, Le32;
    FormatFields();
    var second := DATA + Le32(|data|) + data;
    ChunkReadsFirst(DATA, data, []);
    assert second + [] == second;
    NoChunks();
    ChunkReadsFirst(FMT, FORMAT, second);
    assert ReadChunks(second) == Some([Chunk(DATA, data)]) by {
      assert [Chunk(DATA, data)] + [] == [Chunk(DATA, data)];
    }
    assert [Chunk(FMT, FORMAT)] + [Chunk(DATA, data)] == [Chunk(FMT, FORMAT), Chunk(DATA, data)];
  }

  lemma BodyLength(dataLen: nat, data: seq<Byte>)
    requires dataLen < TWO_32
    ensures |Body(dataLen, data)| == 32 + |data|
  {
  }

  /** The file is RIFF/WAVE, with the format and the data as its two chunks, iff its length fits. */
  lemma WavIsRiffIff(samples: seq<Sample>)
    ensures ReadRiff(WavFile(samples)) ==
      if 36 + 2 * |samples| < TWO_32 then Some([Chunk(FMT, FORMAT), Chunk(DATA, Encode(samples))]) else None
  {
    hide ReadChunks, Encode, Le32, Le16, Read32, ReadRiff, File, Body, DataLen, RiffLen;
    var data, dataLen := Encode(samples), DataLen(|samples|);
    BodyLength(dataLen, data);
    HeaderReads(RiffLen(|samples|), Body(dataLen, data));
    if 36 + 2 * |samples| < TWO_32 {
      BodyReads(data);
    }
  }

  lemma NoChunks()
    ensures ReadChunks([]) == Some([])
  {
  }

  /** A reader gets 16 kHz, mono, 16 bits and the very samples back iff the file
      length fits its 32-bit field; past that the reader refuses the file. */
  lemma WavReadsBackIff(samples: seq<Sample>)
    ensures ReadWav(WavFile(samples)) == Some(Audio(16_000, 1, 16, samples)) <==> 36 + 2 * |samples| < TWO_32
    ensures 36 + 2 * |samples| >= TWO_32 ==> ReadWav(WavFile(samples)).None?
  {
    hide ReadRiff, WavFile, Encode, Decode, Read16, Read32;
    WavIsRiffIff(samples);
    FormatFields();
    DecodeEncode(samples);
  }

  lemma HeaderReads(riffLen: nat, body: seq<Byte>)
    requires riffLen < TWO_32
    ensures ReadRiff(File(riffLen, body)) == if riffLen == 4 + |body| then ReadChunks(body) else None
  {
    hide ReadChunks;
    Le32RoundTrip(riffLen);
    HeaderFields(riffLen, body);
  }

  lemma HeaderFields(riffLen: nat, rest: seq<Byte>)
    requires riffLen < TWO_32
    ensures var b := File(riffLen, rest);
      |b| == 12 + |rest| && b[..4] == RIFF && b[4..8] == Le32(riffLen) && b[8..12] == WAVE && b[12..] == rest
  {
  }
}
