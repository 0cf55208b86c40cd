/** Serialisation of decoded audio as a canonical 44-byte-header PCM WAVE file
    (RIFF form "WAVE" with a "fmt " chunk of format tag 1 and a "data" chunk of
    interleaved little-endian 16-bit samples), as the speech-to-text client
    does before uploading. */
module Wav {

  type Byte = b: int | 0 <= b < 256

  /** MIME type of the produced file. */
  const WavMime: string := "audio/wav"

  /** Size of the header that precedes the samples. */
  const HeaderSize: nat := 44

  /** Decoded audio: the sample rate and one sequence of samples per channel. */
  datatype AudioData = AudioData(sampleRate: nat, length: nat, channels: seq<seq<real>>)

  /** As the platform decodes it, every channel holds `length` frames. */
  type AudioBuffer = b: AudioData | forall c :: 0 <= c < |b.channels| ==> |b.channels[c]| == b.length
    witness AudioData(0, 0, [])

  // ------------------------------------------------------------ byte encoding

  function Pow256(n: nat): (r: nat)
    ensures r >= 1
  {
    if n == 0 then 1 else 256 * Pow256(n - 1)
  }

  /** The `n` little-endian bytes `DataView.setUintN(.., v, true)` and
      `setIntN` write: `v` reduced modulo 256^n (two's complement for negative
      values). */
  function LE(v: int, n: nat): (r: seq<Byte>)
    ensures |r| == n
    decreases n
  {
    if n == 0 then [] else [v % 256] + LE(v / 256, n - 1)
  }

  /** The unsigned value of little-endian bytes. */
  function DecodeLE(bs: seq<Byte>): nat {
    if bs == [] then 0 else bs[0] + 256 * DecodeLE(bs[1..])
  }

  /** The signed value of two little-endian bytes. */
  function DecodeInt16(bs: seq<Byte>): int
    requires |bs| == 2
  {
    var u := DecodeLE(bs);
    if u >= 32768 then u - 65536 else u
  }

  lemma ModSplit(v: int, m: nat)
    requires m >= 1
    ensures v % (256 * m) == v % 256 + 256 * ((v / 256) % m)
  {
    var q, r := v / 256, v % 256;
    var q2, r2 := q / m, q % m;
    assert v == 256 * q + r;
    assert q == m * q2 + r2;
    assert v == (256 * m) * q2 + (256 * r2 + r);
    assert 0 <= 256 * r2 + r < 256 * m;
    DivModUnique(v, 256 * m, q2, 256 * r2 + r);
  }

  lemma {:induction false} MulMono(a: nat, b: nat, c: nat)
    requires a <= b
    ensures a * c <= b * c
  {
    if c > 0 {
      MulMono(a, b, c - 1);
    }
  }

  lemma DivModUnique(n: int, d: int, q: int, r: int)
    requires d > 0 && 0 <= r < d && n == d * q + r
    ensures n / d == q && n % d == r
  {
    var q0 := n / d;
    if q0 > q {
      MulMono(1, q0 - q, d);
    } else if q0 < q {
      MulMono(1, q - q0, d);
    }
  }

  /** Decoding what `LE` wrote gives the value modulo 256^n. */
  lemma {:induction false} DecodeLE_LE(v: int, n: nat)
    ensures DecodeLE(LE(v, n)) == v % Pow256(n)
    decreases n
  {
    if n > 0 {
      DecodeLE_LE(v / 256, n - 1);
      assert LE(v, n)[1..] == LE(v / 256, n - 1);
      ModSplit(v, Pow256(n - 1));
    }
  }

  lemma Pow256Values()
    ensures Pow256(2) == 65536 && Pow256(4) == 4294967296
  {
    assert Pow256(1) == 256;
    assert Pow256(3) == 16777216;
  }

  /** A value that fits in `n` bytes is decoded unchanged. */
  lemma FitsRoundTrip(v: nat, n: nat)
    requires v < Pow256(n)
    ensures DecodeLE(LE(v, n)) == v
  {
    DecodeLE_LE(v, n);
  }

  /** A value in the int16 range survives a 16-bit write and a signed read. */
  lemma Int16RoundTrip(v: int)
    requires -32768 <= v <= 32767
    ensures DecodeInt16(LE(v, 2)) == v
  {
    DecodeLE_LE(v, 2);
    if v < 0 {
      DivModUnique(v, 65536, -1, v + 65536);
    } else {
      DivModUnique(v, 65536, 0, v);
    }
  }

  /** The character codes of an ASCII tag such as "RIFF". */
  function Ascii(s: string): (r: seq<Byte>)
    requires forall i :: 0 <= i < |s| ==> s[i] as int < 256
    ensures |r| == |s| && forall i :: 0 <= i < |s| ==> r[i] == s[i] as int
  {
    seq(|s|, i requires 0 <= i < |s| => s[i] as int as Byte)
  }

  // ------------------------------------------------------------ header

  /** Number of data bytes: two per sample, one sample per frame and channel.
      Products are written with `Mul` (see below) to keep them linear for the
      solver; `DataLengthIsProduct` states the product. */
  function DataLength(length: nat, numberOfChannels: nat): nat {
    Mul(length, 2 * numberOfChannels)
  }

  lemma DataLengthIsProduct(length: nat, numberOfChannels: nat)
    ensures DataLength(length, numberOfChannels) == length * numberOfChannels * 2
  {
    TwiceProduct(length, numberOfChannels);
  }

  lemma TwiceProduct(a: nat, b: nat)
    ensures Mul(a, 2 * b) == a * b * 2
  {
    MulIsProduct(a, 2 * b);
    assert a * (2 * b) == a * b * 2;
  }

  /** The RIFF descriptor: tag, size of the rest of the file, form type. */
  function RiffChunkHeader(dataLen: nat): (r: seq<Byte>)
    ensures |r| == 12
  {
    Ascii("RIFF") + LE(36 + dataLen, 4) + Ascii("WAVE")
  }

  /** The "fmt " chunk: its size 16, format tag 1 (PCM), channel count,
      sample rate, byte rate, block alignment and 16 bits per sample. */
  function FmtChunk(numberOfChannels: nat, sampleRate: nat): (r: seq<Byte>)
    ensures |r| == 24
  {
    FmtHead(numberOfChannels) + FmtRates(numberOfChannels, sampleRate)
  }

  /** The first half of the "fmt " chunk: tag, chunk size, format tag,
      channel count. */
  function FmtHead(numberOfChannels: nat): (r: seq<Byte>)
    ensures |r| == 12
  {
    Ascii("fmt ") + LE(16, 4) + LE(1, 2) + LE(numberOfChannels, 2)
  }

  /** The second half of the "fmt " chunk: sample rate, byte rate, block
      alignment, bits per sample. */
  function FmtRates(numberOfChannels: nat, sampleRate: nat): (r: seq<Byte>)
    ensures |r| == 12
  {
    LE(sampleRate, 4) + LE(Mul(sampleRate, 2 * numberOfChannels), 4)
    + LE(2 * numberOfChannels, 2) + LE(16, 2)
  }

  /** The header of the "data" chunk: tag and size of the samples. */
  function DataChunkHeader(dataLen: nat): (r: seq<Byte>)
    ensures |r| == 8
  {
    Ascii("data") + LE(dataLen, 4)
  }

  /** The 44-byte header. */
  function WavHeader(length: nat, numberOfChannels: nat, sampleRate: nat): (r: seq<Byte>)
    ensures |r| == HeaderSize
  {
    var dataLen := DataLength(length, numberOfChannels);
    RiffChunkHeader(dataLen) + FmtChunk(numberOfChannels, sampleRate) + DataChunkHeader(dataLen)
  }

  /** The four blocks sit at bytes 0-11, 12-23, 24-35 and 36-43. */
  lemma HeaderBlocks(length: nat, numberOfChannels: nat, sampleRate: nat)
    ensures var h := WavHeader(length, numberOfChannels, sampleRate);
            var dataLen := DataLength(length, numberOfChannels);
            && h[0..12] == RiffChunkHeader(dataLen)
            && h[12..24] == FmtHead(numberOfChannels)
            && h[24..36] == FmtRates(numberOfChannels, sampleRate)
            && h[36..44] == DataChunkHeader(dataLen)
  {
    var h := WavHeader(length, numberOfChannels, sampleRate);
    var fmt := FmtChunk(numberOfChannels, sampleRate);
    assert h[12..36] == fmt;
    assert h[12..24] == fmt[..12];
    assert h[24..36] == fmt[12..];
  }

  /** The RIFF descriptor: "RIFF", the size `36 + dataLen` of the rest of the
      file (modulo 2^32), "WAVE". */
  lemma RiffFields(dataLen: nat)
    ensures var r := RiffChunkHeader(dataLen);
            && r[0..4] == Ascii("RIFF")
            && DecodeLE(r[4..8]) == (36 + dataLen) % Pow256(4)
            && r[8..12] == Ascii("WAVE")
  {
    var r := RiffChunkHeader(dataLen);
    assert r[4..8] == LE(36 + dataLen, 4);
    DecodeLE_LE(36 + dataLen, 4);
  }

  /** The first half of the "fmt " chunk: "fmt ", chunk size 16, format tag
      1 (PCM), the channel count modulo 2^16. */
  lemma FmtHeadFields(numberOfChannels: nat)
    ensures var f := FmtHead(numberOfChannels);
            && f[0..4] == Ascii("fmt ")
            && DecodeLE(f[4..8]) == 16
            && DecodeLE(f[8..10]) == 1
            && DecodeLE(f[10..12]) == numberOfChannels % Pow256(2)
  {
    var tag, size, format, channels := Ascii("fmt "), LE(16, 4), LE(1, 2), LE(numberOfChannels, 2);
    Fields4422(tag, size, format, channels);
    Pow256Values();
    FitsRoundTrip(16, 4);
    FitsRoundTrip(1, 2);
    DecodeLE_LE(numberOfChannels, 2);
  }

  /** Where the four fields of a 4+4+2+2-byte block sit. */
  lemma Fields4422(a: seq<Byte>, b: seq<Byte>, c: seq<Byte>, d: seq<Byte>)
    requires |a| == 4 && |b| == 4 && |c| == 2 && |d| == 2
    ensures var f := a + b + c + d;
            f[0..4] == a && f[4..8] == b && f[8..10] == c && f[10..12] == d
  {
    var f := a + b + c + d;
    assert f[0..4] == a;
    assert f[4..8] == b;
    assert f[8..10] == c;
    assert f[10..12] == d;
  }

  /** The second half of the "fmt " chunk: the sample rate, the byte rate
      `sampleRate * channels * 2`, the block alignment `channels * 2` and 16
      bits per sample, each modulo its field width. */
  lemma FmtRateFields(numberOfChannels: nat, sampleRate: nat)
    ensures var f := FmtRates(numberOfChannels, sampleRate);
            && DecodeLE(f[0..4]) == sampleRate % Pow256(4)
            && DecodeLE(f[4..8]) == (sampleRate * numberOfChannels * 2) % Pow256(4)
            && DecodeLE(f[8..10]) == (numberOfChannels * 2) % Pow256(2)
            && DecodeLE(f[10..12]) == 16
  {
    var rate, byteRate := LE(sampleRate, 4), LE(Mul(sampleRate, 2 * numberOfChannels), 4);
    var align, bits := LE(2 * numberOfChannels, 2), LE(16, 2);
    Fields4422(rate, byteRate, align, bits);
    Pow256Values();
    DecodeLE_LE(sampleRate, 4);
    DecodeLE_LE(Mul(sampleRate, 2 * numberOfChannels), 4);
    DecodeLE_LE(2 * numberOfChannels, 2);
    TwiceProduct(sampleRate, numberOfChannels);
    FitsRoundTrip(16, 2);
  }

  /** The header of the "data" chunk: "data" and the number of sample bytes
      (modulo 2^32). */
  lemma DataFields(dataLen: nat)
    ensures var d := DataChunkHeader(dataLen);
            && d[0..4] == Ascii("data")
            && DecodeLE(d[4..8]) == dataLen % Pow256(4)
  {
    var d := DataChunkHeader(dataLen);
    assert d[4..8] == LE(dataLen, 4);
    DecodeLE_LE(dataLen, 4);
  }

  // ------------------------------------------------------------ samples

  /** `Math.max(-1, Math.min(1, x))`. */
  function Clamp(x: real): real {
    if x < -1.0 then -1.0 else if x > 1.0 then 1.0 else x
  }

  /** A clamped sample lies in [-1, 1] and is the sample itself when that
      already did. */
  lemma ClampBounds(x: real)
    ensures -1.0 <= Clamp(x) <= 1.0
    ensures -1.0 <= x <= 1.0 ==> Clamp(x) == x
  {
  }

  /** Conversion of a number to an integer by dropping its fraction (towards
      zero), as a 16-bit DataView write does. */
  function Truncate(x: real): int {
    if x >= 0.0 then x.Floor else -((-x).Floor)
  }

  /** `Truncate` drops the fraction: the result is the integer next to `x`
      on the side of zero. */
  lemma TruncateTowardZero(x: real)
    ensures x >= 0.0 ==> 0 <= Truncate(x) && Truncate(x) as real <= x < Truncate(x) as real + 1.0
    ensures x < 0.0 ==> Truncate(x) <= 0 && Truncate(x) as real - 1.0 < x <= Truncate(x) as real
  {
  }

  /** The 16-bit value written for one sample: clamped, scaled by 0x8000 when
      negative and by 0x7FFF otherwise, truncated. It always lies in the int16
      range. */
  function Pcm16(x: real): (r: int)
    ensures -32768 <= r <= 32767
  {
    ClampBounds(x);
    ScaleBounds(Clamp(x));
    TruncateTowardZero(Scale(Clamp(x)));
    Truncate(Scale(Clamp(x)))
  }

  /** A clamped sample scaled towards the int16 range: by 0x8000 below zero,
      by 0x7FFF otherwise. */
  function Scale(s: real): real {
    if s < 0.0 then s * 32768.0 else s * 32767.0
  }

  /** Samples in [-1, 1] scale into [-32768, 32767], keeping their sign. */
  lemma ScaleBounds(s: real)
    requires -1.0 <= s <= 1.0
    ensures -32768.0 <= Scale(s) <= 32767.0
    ensures s < 0.0 <==> Scale(s) < 0.0
  {
  }

  /** The samples of one channel as int16 values. */
  function PcmSamples(xs: seq<real>): (r: seq<int>)
    ensures |r| == |xs|
  {
    if xs == [] then [] else PcmSamples(xs[..|xs| - 1]) + [Pcm16(xs[|xs| - 1])]
  }

  lemma {:induction false} PcmSamplesAt(xs: seq<real>, j: nat)
    requires j < |xs|
    ensures PcmSamples(xs)[j] == Pcm16(xs[j])
  {
    if j < |xs| - 1 {
      PcmSamplesAt(xs[..|xs| - 1], j);
    }
  }

  /** Every channel as int16 values. */
  function PcmChannels(chs: seq<seq<real>>): (r: seq<seq<int>>)
    ensures |r| == |chs|
  {
    if chs == [] then [] else PcmChannels(chs[..|chs| - 1]) + [PcmSamples(chs[|chs| - 1])]
  }

  lemma {:induction false} PcmChannelsAt(chs: seq<seq<real>>, c: nat)
    requires c < |chs|
    ensures PcmChannels(chs)[c] == PcmSamples(chs[c])
  {
    if c < |chs| - 1 {
      PcmChannelsAt(chs[..|chs| - 1], c);
    }
  }

  /** The int16 samples written for an audio buffer: as many frames and
      channels as the buffer. */
  datatype PcmData = PcmData(length: nat, channels: seq<seq<int>>)

  type PcmBuffer = p: PcmData | forall c :: 0 <= c < |p.channels| ==> |p.channels[c]| == p.length
    witness PcmData(0, [])

  /** The buffer's samples, each clamped, scaled and truncated. */
  function ToPcm(buf: AudioBuffer): (p: PcmBuffer)
    ensures p.length == buf.length && |p.channels| == |buf.channels|
  {
    PcmRectangular(buf);
    PcmData(buf.length, PcmChannels(buf.channels))
  }

  lemma PcmRectangular(buf: AudioBuffer)
    ensures forall c :: 0 <= c < |buf.channels| ==> |PcmChannels(buf.channels)[c]| == buf.length
  {
    forall c | 0 <= c < |buf.channels| ensures |PcmChannels(buf.channels)[c]| == buf.length {
      PcmChannelsAt(buf.channels, c);
    }
  }

  /** Sample `i` of channel `c` is the converted input sample. */
  lemma ToPcmAt(buf: AudioBuffer, i: nat, c: nat)
    requires i < buf.length && c < |buf.channels|
    ensures ToPcm(buf).channels[c][i] == Pcm16(buf.channels[c][i])
  {
    PcmChannelsAt(buf.channels, c);
    PcmSamplesAt(buf.channels[c], i);
  }

  /** The bytes of the first `k` channels of frame `i`: each sample as a
      little-endian int16, channel after channel. */
  function FrameBytes(p: PcmBuffer, i: nat, k: nat): (r: seq<Byte>)
    requires i < p.length && k <= |p.channels|
    ensures |r| == 2 * k
  {
    if k == 0 then [] else FrameBytes(p, i, k - 1) + LE(p.channels[k - 1][i], 2)
  }

  /** Channel `c` of frame `i` occupies bytes `2c` and `2c + 1` of the frame. */
  lemma {:induction false} FrameBytesAt(p: PcmBuffer, i: nat, k: nat, c: nat)
    requires i < p.length && c < k <= |p.channels|
    ensures FrameBytes(p, i, k)[2 * c..2 * c + 2] == LE(p.channels[c][i], 2)
  {
    if c < k - 1 {
      FrameBytesAt(p, i, k - 1, c);
      PairInPrefix([], FrameBytes(p, i, k - 1), FrameBytes(p, i, k), 2 * c);
    }
  }

  /** The blocks, one after the other. */
  function Concat(blocks: seq<seq<Byte>>): seq<Byte> {
    if blocks == [] then [] else Concat(blocks[..|blocks| - 1]) + blocks[|blocks| - 1]
  }

  /** Every block is `w` bytes long. */
  predicate Uniform(blocks: seq<seq<Byte>>, w: nat) {
    forall j :: 0 <= j < |blocks| ==> |blocks[j]| == w
  }

  /** `a * b` as repeated addition: offsets are built from it so that the
      arithmetic about them stays linear. */
  function Mul(a: nat, b: nat): nat {
    if a == 0 then 0 else Mul(a - 1, b) + b
  }

  lemma {:induction false} MulIsProduct(a: nat, b: nat)
    ensures Mul(a, b) == a * b
  {
    if a > 0 {
      MulIsProduct(a - 1, b);
    }
  }

  lemma {:induction false} MulMonotone(a: nat, a': nat, b: nat)
    requires a <= a'
    ensures Mul(a, b) <= Mul(a', b)
    decreases a' - a
  {
    if a < a' {
      MulMonotone(a, a' - 1, b);
    }
  }

  /** `n` blocks of `w` bytes take `n * w` bytes. */
  lemma {:induction false} ConcatLength(blocks: seq<seq<Byte>>, w: nat)
    requires Uniform(blocks, w)
    ensures |Concat(blocks)| == Mul(|blocks|, w)
    decreases |blocks|
  {
    if blocks != [] {
      var init := blocks[..|blocks| - 1];
      assert Uniform(init, w) by {
        forall j | 0 <= j < |init| ensures |init[j]| == w {
          assert init[j] == blocks[j];
        }
      }
      ConcatLength(init, w);
    }
  }

  /** In blocks of `w` bytes, bytes `k, k + 1` of block `i` sit at
      `i * w + k`. */
  lemma {:induction false} ConcatAt(blocks: seq<seq<Byte>>, w: nat, i: nat, k: nat)
    requires Uniform(blocks, w) && i < |blocks| && k + 2 <= w
    ensures Mul(i, w) + k + 2 <= |Concat(blocks)|
    ensures Concat(blocks)[Mul(i, w) + k..Mul(i, w) + k + 2] == blocks[i][k..k + 2]
    decreases |blocks|
  {
    var init := blocks[..|blocks| - 1];
    assert Uniform(init, w) by {
      forall j | 0 <= j < |init| ensures |init[j]| == w {
        assert init[j] == blocks[j];
      }
    }
    ConcatLength(init, w);
    assert Concat(blocks) == Concat(init) + blocks[|blocks| - 1];
    if i < |blocks| - 1 {
      ConcatAt(init, w, i, k);
      assert init[i] == blocks[i];
      PairInPrefix([], Concat(init), Concat(blocks), Mul(i, w) + k);
    } else {
      PairInPrefix(Concat(init), blocks[i], Concat(blocks), k);
    }
  }

  /** Bytes `k, k + 1` of `enc` sit at `|before| + k` in anything that starts
      with `before + enc`. */
  lemma PairInPrefix(before: seq<Byte>, enc: seq<Byte>, all: seq<Byte>, k: nat)
    requires before + enc <= all && k + 2 <= |enc|
    ensures |before| + k + 2 <= |all|
    ensures all[|before| + k..|before| + k + 2] == enc[k..k + 2]
  {
    assert all[..|before + enc|] == before + enc;
  }

  /** The bytes of frames `0..n-1`, one block per frame. */
  function FrameBlocks(p: PcmBuffer, n: nat): (r: seq<seq<Byte>>)
    requires n <= p.length
    ensures |r| == n
  {
    if n == 0 then [] else FrameBlocks(p, n - 1) + [FrameBytes(p, n - 1, |p.channels|)]
  }

  /** Block `i` holds frame `i`. */
  lemma {:induction false} FrameBlocksAt(p: PcmBuffer, n: nat, i: nat)
    requires i < n <= p.length
    ensures FrameBlocks(p, n)[i] == FrameBytes(p, i, |p.channels|)
  {
    if i < n - 1 {
      FrameBlocksAt(p, n - 1, i);
    }
  }

  /** Every frame block is two bytes per channel. */
  lemma FrameBlocksUniform(p: PcmBuffer, n: nat)
    requires n <= p.length
    ensures Uniform(FrameBlocks(p, n), 2 * |p.channels|)
  {
    forall j | 0 <= j < n ensures |FrameBlocks(p, n)[j]| == 2 * |p.channels| {
      FrameBlocksAt(p, n, j);
    }
  }

  /** Writing one more frame appends its bytes. */
  lemma FrameBlocksStep(p: PcmBuffer, i: nat)
    requires i < p.length
    ensures Concat(FrameBlocks(p, i + 1)) == Concat(FrameBlocks(p, i)) + FrameBytes(p, i, |p.channels|)
  {
    assert FrameBlocks(p, i + 1)[..i] == FrameBlocks(p, i);
  }

  /** The sample data of a WAV file: frame after frame, channel after
      channel within a frame. */
  function SampleBytes(p: PcmBuffer): seq<Byte> {
    Concat(FrameBlocks(p, p.length))
  }

  /** The whole file `audioBufferToWav` produces: the header, then the
      samples. */
  function WavFile(buf: AudioBuffer): seq<Byte> {
    WavHeader(buf.length, |buf.channels|, buf.sampleRate) + SampleBytes(ToPcm(buf))
  }

  /** Where the sample of frame `i`, channel `c` starts, after a header of
      `headerSize` bytes. */
  function SampleOffset(headerSize: nat, numberOfChannels: nat, i: nat, c: nat): nat {
    headerSize + Mul(i, 2 * numberOfChannels) + 2 * c
  }

  /** The offset of frame `i`, channel `c` is `headerSize + 2 * (i * channels + c)`. */
  lemma SampleOffsetValue(headerSize: nat, numberOfChannels: nat, i: nat, c: nat)
    ensures SampleOffset(headerSize, numberOfChannels, i, c) == headerSize + 2 * (i * numberOfChannels + c)
  {
    MulIsProduct(i, 2 * numberOfChannels);
    assert i * (2 * numberOfChannels) == 2 * (i * numberOfChannels);
  }

  /** The sample data is two bytes per sample. */
  lemma SampleBytesLength(p: PcmBuffer)
    ensures |SampleBytes(p)| == DataLength(p.length, |p.channels|)
  {
    FrameBlocksUniform(p, p.length);
    ConcatLength(FrameBlocks(p, p.length), 2 * |p.channels|);
  }

  /** The file is `44 + frames * channels * 2` bytes long. */
  lemma WavFileLength(buf: AudioBuffer)
    ensures |WavFile(buf)| == HeaderSize + DataLength(buf.length, |buf.channels|)
  {
    SampleBytesLength(ToPcm(buf));
  }

  /** Channel `c`'s sample of frame `i` is the little-endian int16 at byte
      `i * 2 * channels + 2c` of the sample data. */
  lemma SampleData(p: PcmBuffer, i: nat, c: nat)
    requires i < p.length && c < |p.channels|
    ensures var k := Mul(i, 2 * |p.channels|) + 2 * c;
            k + 2 <= |SampleBytes(p)| && SampleBytes(p)[k..k + 2] == LE(p.channels[c][i], 2)
  {
    SampleBlock(p, i, c);
    ConcatSample(FrameBlocks(p, p.length), 2 * |p.channels|, i, 2 * c, LE(p.channels[c][i], 2));
  }

  /** Every frame block is `2 * channels` bytes wide, and channel `c`'s
      sample sits at bytes `2c` and `2c + 1` of block `i`. */
  lemma SampleBlock(p: PcmBuffer, i: nat, c: nat)
    requires i < p.length && c < |p.channels|
    ensures Uniform(FrameBlocks(p, p.length), 2 * |p.channels|)
    ensures FrameBlocks(p, p.length)[i][2 * c..2 * c + 2] == LE(p.channels[c][i], 2)
  {
    FrameBlocksUniform(p, p.length);
    FrameBlocksAt(p, p.length, i);
    FrameBytesAt(p, i, |p.channels|, c);
  }

  /** Two bytes at offset `k` of block `i` sit at offset `i * w + k` of the
      concatenation of blocks of width `w`. */
  lemma ConcatSample(blocks: seq<seq<Byte>>, w: nat, i: nat, k: nat, v: seq<Byte>)
    requires Uniform(blocks, w) && i < |blocks| && k + 2 <= w && blocks[i][k..k + 2] == v
    ensures Mul(i, w) + k + 2 <= |Concat(blocks)| && Concat(blocks)[Mul(i, w) + k..Mul(i, w) + k + 2] == v
  {
    ConcatAt(blocks, w, i, k);
  }

  /** The sample for frame `i`, channel `c` is the little-endian int16 at
      offset `44 + 2 * (i * channels + c)` (`SampleOffsetValue`), holding the
      clamped and scaled sample. */
  lemma WavLayout(buf: AudioBuffer, i: nat, c: nat)
    requires i < buf.length && c < |buf.channels|
    ensures var off := SampleOffset(HeaderSize, |buf.channels|, i, c);
            off + 2 <= |WavFile(buf)| && DecodeInt16(WavFile(buf)[off..off + 2]) == Pcm16(buf.channels[c][i])
  {
    var p := ToPcm(buf);
    SampleData(p, i, c);
    ToPcmAt(buf, i, c);
    PairInPrefix(WavHeader(buf.length, |buf.channels|, buf.sampleRate), SampleBytes(p), WavFile(buf), Mul(i, 2 * |buf.channels|) + 2 * c);
    Int16RoundTrip(Pcm16(buf.channels[c][i]));
  }

  // ------------------------------------------------------------ the writer

  /** `DataView` byte writes: `bs` is written at `offset`, nothing else changes. */
  method SetBytes(view: array<Byte>, offset: nat, bs: seq<Byte>)
    requires offset + |bs| <= view.Length
    modifies view
    ensures view[..] == old(view[..])[..offset] + bs + old(view[..])[offset + |bs|..]
  {
    ghost var before := view[..];
    for j := 0 to |bs|
      invariant forall k :: 0 <= k < view.Length ==> view[k] == if offset <= k < offset + j then bs[k - offset] else before[k]
    {
      view[offset + j] := bs[j];
    }
    assert view[..] == before[..offset] + bs + before[offset + |bs|..];
  }

  /** A write at the end of the filled prefix extends it. */
  method Append(view: array<Byte>, offset: nat, bs: seq<Byte>, ghost written: seq<Byte>)
    requires offset + |bs| <= view.Length && view[..offset] == written
    modifies view
    ensures view[..offset + |bs|] == written + bs
  {
    SetBytes(view, offset, bs);
    assert view[..offset + |bs|] == (old(view[..])[..offset] + bs + old(view[..])[offset + |bs|..])[..offset + |bs|];
  }

  lemma Assoc3(a: seq<Byte>, b: seq<Byte>, c: seq<Byte>)
    ensures a + b + c == a + (b + c)
  {
  }

  lemma Assoc4(w: seq<Byte>, a: seq<Byte>, b: seq<Byte>, c: seq<Byte>, d: seq<Byte>)
    ensures w + a + b + c + d == w + (a + b + c + d)
  {
  }

  /** The header writes of `audioBufferToWav`, in the order and at the
      offsets it uses: the RIFF descriptor, the "fmt " chunk, the header of the
      "data" chunk. */
  method WriteHeader(view: array<Byte>, length: nat, numberOfChannels: nat, sampleRate: nat)
    requires view.Length >= HeaderSize
    modifies view
    ensures view[..HeaderSize] == WavHeader(length, numberOfChannels, sampleRate)
  {
    var dataLen := DataLength(length, numberOfChannels);
    WriteRiffChunkHeader(view, dataLen);
    WriteFmtChunk(view, numberOfChannels, sampleRate, RiffChunkHeader(dataLen));
    WriteDataChunkHeader(view, dataLen, RiffChunkHeader(dataLen) + FmtChunk(numberOfChannels, sampleRate));
  }

  method WriteRiffChunkHeader(view: array<Byte>, dataLen: nat)
    requires view.Length >= 12
    modifies view
    ensures view[..12] == RiffChunkHeader(dataLen)
  {
    Append(view, 0, Ascii("RIFF"), []);
    Append(view, 4, LE(36 + dataLen, 4), Ascii("RIFF"));
    Append(view, 8, Ascii("WAVE"), Ascii("RIFF") + LE(36 + dataLen, 4));
  }

  method WriteFmtChunk(view: array<Byte>, numberOfChannels: nat, sampleRate: nat, ghost written: seq<Byte>)
    requires view.Length >= 36 && |written| == 12 && view[..12] == written
    modifies view
    ensures view[..36] == written + FmtChunk(numberOfChannels, sampleRate)
  {
    ghost var acc := written;
    Append(view, 12, Ascii("fmt "), acc);
    acc := acc + Ascii("fmt ");
    Append(view, 16, LE(16, 4), acc);
    acc := acc + LE(16, 4);
    Append(view, 20, LE(1, 2), acc);
    acc := acc + LE(1, 2);
    Append(view, 22, LE(numberOfChannels, 2), acc);
    acc := acc + LE(numberOfChannels, 2);
    Assoc4(written, Ascii("fmt "), LE(16, 4), LE(1, 2), LE(numberOfChannels, 2));
    WriteFmtRates(view, numberOfChannels, sampleRate, acc);
    Assoc3(written, FmtHead(numberOfChannels), FmtRates(numberOfChannels, sampleRate));
  }

  method WriteFmtRates(view: array<Byte>, numberOfChannels: nat, sampleRate: nat, ghost written: seq<Byte>)
    requires view.Length >= 36 && |written| == 24 && view[..24] == written
    modifies view
    ensures view[..36] == written + FmtRates(numberOfChannels, sampleRate)
  {
    ghost var acc := written;
    Append(view, 24, LE(sampleRate, 4), acc);
    acc := acc + LE(sampleRate, 4);
    var byteRate := Mul(sampleRate, 2 * numberOfChannels);
    Append(view, 28, LE(byteRate, 4), acc);
    acc := acc + LE(byteRate, 4);
    Append(view, 32, LE(2 * numberOfChannels, 2), acc);
    acc := acc + LE(2 * numberOfChannels, 2);
    Append(view, 34, LE(16, 2), acc);
    Assoc4(written, LE(sampleRate, 4), LE(byteRate, 4), LE(2 * numberOfChannels, 2), LE(16, 2));
  }

  method WriteDataChunkHeader(view: array<Byte>, dataLen: nat, ghost written: seq<Byte>)
    requires view.Length >= HeaderSize && |written| == 36 && view[..36] == written
    modifies view
    ensures view[..HeaderSize] == written + DataChunkHeader(dataLen)
  {
    Append(view, 36, Ascii("data"), written);
    Append(view, 40, LE(dataLen, 4), written + Ascii("data"));
  }

  /** The inner loop of `audioBufferToWav`: the samples of frame `i`, channel
      by channel, from `offset` on, each clamped, scaled and written as a
      little-endian int16. */
  method WriteFrame(view: array<Byte>, buf: AudioBuffer, i: nat, offset: nat, ghost written: seq<Byte>)
    returns (next: nat)
    requires i < buf.length
    requires offset + 2 * |buf.channels| <= view.Length && view[..offset] == written
    modifies view
    ensures next == offset + 2 * |buf.channels|
    ensures view[..next] == written + FrameBytes(ToPcm(buf), i, |buf.channels|)
  {
    ghost var p := ToPcm(buf);
    next := offset;
    for channel := 0 to |buf.channels|
      invariant next == offset + 2 * channel
      invariant view[..next] == written + FrameBytes(p, i, channel)
    {
      var sample := Clamp(buf.channels[channel][i]);
      var value := Truncate(Scale(sample));
      ToPcmAt(buf, i, channel);
      Append(view, next, LE(value, 2), written + FrameBytes(p, i, channel));
      Assoc3(written, FrameBytes(p, i, channel), LE(value, 2));
      next := next + 2;
    }
  }

  /** `audioBufferToWav`: fills a buffer of `44 + length * channels * 2` bytes
      through a data view, header field by header field, then the samples in
      nested frame and channel loops with a running offset. */
  method AudioBufferToWav(buf: AudioBuffer) returns (wav: seq<Byte>)
    ensures wav == WavFile(buf)
    ensures |wav| == HeaderSize + DataLength(buf.length, |buf.channels|)
  {
    var length := buf.length;
    var numberOfChannels := |buf.channels|;
    var sampleRate := buf.sampleRate;
    var dataLen := DataLength(length, numberOfChannels);
    var view := new Byte[HeaderSize + dataLen];
    WriteHeader(view, length, numberOfChannels, sampleRate);
    ghost var h := WavHeader(length, numberOfChannels, sampleRate);
    ghost var p := ToPcm(buf);

    var offset := HeaderSize;
    for i := 0 to length
      invariant offset == HeaderSize + Mul(i, 2 * numberOfChannels) <= view.Length
      invariant view[..offset] == h + Concat(FrameBlocks(p, i))
    {
      MulMonotone(i + 1, length, 2 * numberOfChannels);
      offset := WriteFrame(view, buf, i, offset, h + Concat(FrameBlocks(p, i)));
      FrameBlocksStep(p, i);
      Assoc3(h, Concat(FrameBlocks(p, i)), FrameBytes(p, i, numberOfChannels));
    }
    assert view[..] == view[..offset];
    wav := view[..];
    WavFileLength(buf);
  }
}
