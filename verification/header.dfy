/**
  The canonical 44-byte RIFF/WAVE header: a 12-byte RIFF descriptor, a 24-byte
  "fmt " chunk and the 8-byte head of the "data" chunk, little-endian
  throughout. The header is a pure function of the sample count, channel
  count, sample rate and sample format; it is written once with a sample
  count of 0 when a file is opened and once more with the final count when it
  is closed.
 */
module WaveHeader {
  import opened Results
  import opened Bytes
  import opened SampleFormats

  const HeaderSize: nat := 44

  /** Upper bound (exclusive) of a 'H' field and of a 'L' field. */
  const U16Limit: nat := 0x1_0000
  const U32Limit: nat := 0x1_0000_0000

  /** Bytes of one frame: one sample for every channel. */
  function BlockAlign(numChannels: int, format: SampleFormat): int {
    numChannels * BytesPerSample(format)
  }

  /** Bytes of sample data once `numSamples` frames have been appended. */
  function DataSize(numSamples: nat, numChannels: int, format: SampleFormat): int {
    numSamples * BlockAlign(numChannels, format)
  }

  /** The nine numeric header fields, in file order; the four tags are constant. */
  datatype HeaderFields = HeaderFields(
    riffSize: int, fmtSize: int, audioFormat: int, numChannels: int, sampleRate: int,
    byteRate: int, blockAlign: int, bitsPerSample: int, dataSize: int)

  /** The fields the writer puts in the header for the given stream parameters. */
  function FieldsFor(numSamples: nat, numChannels: int, sampleRate: int, format: SampleFormat): (r: HeaderFields)
    ensures r.riffSize == 36 + r.dataSize && r.fmtSize == 16
    ensures r.audioFormat == (if format == UInt8 || format == Int16 then 1 else 3)
    ensures r.numChannels == numChannels && r.sampleRate == sampleRate
    ensures r.blockAlign == numChannels * BytesPerSample(format)
    ensures r.byteRate == sampleRate * r.blockAlign
    ensures r.bitsPerSample == 8 * BytesPerSample(format)
    ensures r.dataSize == numSamples * r.blockAlign
  {
    HeaderFields(
      36 + DataSize(numSamples, numChannels, format),
      16,
      Info(format).audioFormat.Tag(),
      numChannels,
      sampleRate,
      sampleRate * BlockAlign(numChannels, format),
      BlockAlign(numChannels, format),
      BitsPerSample(format),
      DataSize(numSamples, numChannels, format))
  }

  /** Every 'H' field is in [0, 2^16) and every 'L' field in [0, 2^32). */
  predicate FieldsFit(h: HeaderFields) {
    && 0 <= h.riffSize < U32Limit
    && 0 <= h.fmtSize < U32Limit
    && 0 <= h.audioFormat < U16Limit
    && 0 <= h.numChannels < U16Limit
    && 0 <= h.sampleRate < U32Limit
    && 0 <= h.byteRate < U32Limit
    && 0 <= h.blockAlign < U16Limit
    && 0 <= h.bitsPerSample < U16Limit
    && 0 <= h.dataSize < U32Limit
  }

  /** Whether struct.pack accepts the header for these parameters. */
  predicate HeaderFits(numSamples: nat, numChannels: int, sampleRate: int, format: SampleFormat) {
    FieldsFit(FieldsFor(numSamples, numChannels, sampleRate, format))
  }

  /** The parameters fit the header fields exactly when each of them, and the products built from them, are in range. */
  lemma HeaderFitsIff(numSamples: nat, numChannels: int, sampleRate: int, format: SampleFormat)
    ensures HeaderFits(numSamples, numChannels, sampleRate, format) <==>
      && 0 <= numChannels < U16Limit
      && 0 <= sampleRate < U32Limit
      && BlockAlign(numChannels, format) < U16Limit
      && sampleRate * BlockAlign(numChannels, format) < U32Limit
      && numSamples * BlockAlign(numChannels, format) < U32Limit - 36
  {
    var align := BlockAlign(numChannels, format);
    if 0 <= numChannels {
      assert 0 <= align;
      MulNonnegative(numSamples, align);
      if 0 <= sampleRate {
        MulNonnegative(sampleRate, align);
      }
    }
  }

  lemma MulNonnegative(a: int, b: int)
    requires 0 <= a && 0 <= b
    ensures 0 <= a * b
  {
  }

  /** The octets of the tags "RIFF", "WAVE", "fmt " and "data". */
  function RiffTag(): (r: seq<byte>) ensures |r| == 4 { Ascii("RIFF") }
  function WaveTag(): (r: seq<byte>) ensures |r| == 4 { Ascii("WAVE") }
  function FmtTag(): (r: seq<byte>) ensures |r| == 4 { Ascii("fmt ") }
  function DataTag(): (r: seq<byte>) ensures |r| == 4 { Ascii("data") }

  /**
    Packs fields that are known to fit, in the order of the format
    "<4sL4s4sLHHLLHH4sL": the RIFF descriptor (bytes 0..12), the "fmt " chunk
    (12..36) and the head of the "data" chunk (36..44).
   */
  function Serialise(h: HeaderFields): (r: seq<byte>)
    requires FieldsFit(h)
    ensures |r| == HeaderSize
  {
    Descriptor(h) + FmtChunk(h) + DataHead(h)
  }

  /** "RIFF", the RIFF size, "WAVE". */
  function Descriptor(h: HeaderFields): (r: seq<byte>)
    requires FieldsFit(h)
    ensures |r| == 12
  {
    RiffTag() + ToLE(h.riffSize, 4) + WaveTag()
  }

  /** "fmt ", the chunk size, then the stream and frame fields. */
  function FmtChunk(h: HeaderFields): (r: seq<byte>)
    requires FieldsFit(h)
    ensures |r| == 24
  {
    FmtTag() + ToLE(h.fmtSize, 4) + StreamFields(h) + FrameFields(h)
  }

  /** Format tag, channel count, sample rate. */
  function StreamFields(h: HeaderFields): (r: seq<byte>)
    requires FieldsFit(h)
    ensures |r| == 8
  {
    ToLE(h.audioFormat, 2) + ToLE(h.numChannels, 2) + ToLE(h.sampleRate, 4)
  }

  /** Byte rate, block alignment, bits per sample. */
  function FrameFields(h: HeaderFields): (r: seq<byte>)
    requires FieldsFit(h)
    ensures |r| == 8
  {
    ToLE(h.byteRate, 4) + ToLE(h.blockAlign, 2) + ToLE(h.bitsPerSample, 2)
  }

  /** "data", the data size. */
  function DataHead(h: HeaderFields): (r: seq<byte>)
    requires FieldsFit(h)
    ensures |r| == 8
  {
    DataTag() + ToLE(h.dataSize, 4)
  }

  lemma Split3(a: seq<byte>, b: seq<byte>, c: seq<byte>)
    ensures (a + b + c)[..|a|] == a
    ensures (a + b + c)[|a|..|a| + |b|] == b
    ensures (a + b + c)[|a| + |b|..] == c
  {
  }

  /** A slice of a slice is a slice of the whole. */
  lemma SliceOfSlice(s: seq<byte>, i: nat, j: nat, k: nat, l: nat)
    requires i <= j <= |s| && k <= l <= j - i
    ensures s[i..j][k..l] == s[i + k..i + l]
  {
    assert forall m :: 0 <= m < l - k ==> s[i..j][k..l][m] == s[i + k..i + l][m];
  }

  /** The header bytes, or `None` when some field does not fit its width (struct.error). */
  function Header(numSamples: nat, numChannels: int, sampleRate: int, format: SampleFormat): (r: Option<seq<byte>>)
    ensures r.Some? <==> HeaderFits(numSamples, numChannels, sampleRate, format)
    ensures r.Some? ==> |r.value| == HeaderSize
  {
    var fields := FieldsFor(numSamples, numChannels, sampleRate, format);
    if FieldsFit(fields) then
      Some(Serialise(fields))
    else
      None
  }

  /** Reading back the header of any parameters that fit gives the fields the writer meant to store. */
  lemma HeaderRoundTrip(numSamples: nat, numChannels: int, sampleRate: int, format: SampleFormat)
    requires HeaderFits(numSamples, numChannels, sampleRate, format)
    ensures ParseHeader(Header(numSamples, numChannels, sampleRate, format).value)
         == Some(FieldsFor(numSamples, numChannels, sampleRate, format))
  {
    ParseSerialise(FieldsFor(numSamples, numChannels, sampleRate, format));
  }

  /** Reads a 44-byte header back: checks the four tags and decodes each numeric field. */
  function ParseHeader(b: seq<byte>): (r: Option<HeaderFields>)
    ensures r.Some? ==> |b| == HeaderSize
    ensures r.Some? ==> b[0..4] == RiffTag() && b[8..12] == WaveTag() && b[12..16] == FmtTag() && b[36..40] == DataTag()
    ensures r.Some? ==> FieldsFit(r.value)
  {
    Pow256Widths();
    if |b| == HeaderSize && b[0..4] == RiffTag() && b[8..12] == WaveTag() && b[12..16] == FmtTag() && b[36..40] == DataTag() then
      Some(HeaderFields(
        FromLE(b[4..8]), FromLE(b[16..20]), FromLE(b[20..22]), FromLE(b[22..24]), FromLE(b[24..28]),
        FromLE(b[28..32]), FromLE(b[32..34]), FromLE(b[34..36]), FromLE(b[40..44])))
    else
      None
  }

  /** Decoding a serialised header recovers every field: the layout round-trips. */
  lemma ParseSerialise(h: HeaderFields)
    requires FieldsFit(h)
    ensures ParseHeader(Serialise(h)) == Some(h)
  {
    var b := Serialise(h);
    DescriptorAt(b, h);
    FmtChunkAt(b, h);
    DataHeadAt(b, h);
    FromToLE(h.riffSize, 4);
    FromToLE(h.fmtSize, 4);
    FromToLE(h.audioFormat, 2);
    FromToLE(h.numChannels, 2);
    FromToLE(h.sampleRate, 4);
    FromToLE(h.byteRate, 4);
    FromToLE(h.blockAlign, 2);
    FromToLE(h.bitsPerSample, 2);
    FromToLE(h.dataSize, 4);
  }

  lemma DescriptorAt(b: seq<byte>, h: HeaderFields)
    requires FieldsFit(h) && b == Serialise(h)
    ensures b[0..4] == RiffTag() && b[4..8] == ToLE(h.riffSize, 4) && b[8..12] == WaveTag()
  {
    Split3(Descriptor(h), FmtChunk(h), DataHead(h));
    Split3(RiffTag(), ToLE(h.riffSize, 4), WaveTag());
    SliceOfSlice(b, 0, 12, 0, 4);
    SliceOfSlice(b, 0, 12, 4, 8);
    SliceOfSlice(b, 0, 12, 8, 12);
  }

  lemma FmtChunkAt(b: seq<byte>, h: HeaderFields)
    requires FieldsFit(h) && b == Serialise(h)
    ensures b[12..16] == FmtTag() && b[16..20] == ToLE(h.fmtSize, 4)
    ensures b[20..22] == ToLE(h.audioFormat, 2) && b[22..24] == ToLE(h.numChannels, 2) && b[24..28] == ToLE(h.sampleRate, 4)
    ensures b[28..32] == ToLE(h.byteRate, 4) && b[32..34] == ToLE(h.blockAlign, 2) && b[34..36] == ToLE(h.bitsPerSample, 2)
  {
    Split3(Descriptor(h), FmtChunk(h), DataHead(h));
    var f := FmtChunk(h);
    assert b[12..36] == f;
    Split3(FmtTag() + ToLE(h.fmtSize, 4), StreamFields(h), FrameFields(h));
    Split3(FmtTag(), ToLE(h.fmtSize, 4), []);
    assert f[..8] == FmtTag() + ToLE(h.fmtSize, 4);
    SliceOfSlice(f, 0, 8, 0, 4);
    SliceOfSlice(f, 0, 8, 4, 8);
    SliceOfSlice(b, 12, 36, 0, 4);
    SliceOfSlice(b, 12, 36, 4, 8);
    StreamFieldsAt(b, h);
    FrameFieldsAt(b, h);
  }

  lemma StreamFieldsAt(b: seq<byte>, h: HeaderFields)
    requires FieldsFit(h) && b == Serialise(h)
    ensures b[20..22] == ToLE(h.audioFormat, 2) && b[22..24] == ToLE(h.numChannels, 2) && b[24..28] == ToLE(h.sampleRate, 4)
  {
    Split3(Descriptor(h), FmtChunk(h), DataHead(h));
    Split3(FmtTag() + ToLE(h.fmtSize, 4), StreamFields(h), FrameFields(h));
    var f := FmtChunk(h);
    assert b[12..36] == f;
    SliceOfSlice(b, 12, 36, 8, 16);
    var sf := StreamFields(h);
    assert b[20..28] == sf;
    Split3(ToLE(h.audioFormat, 2), ToLE(h.numChannels, 2), ToLE(h.sampleRate, 4));
    SliceOfSlice(b, 20, 28, 0, 2);
    SliceOfSlice(b, 20, 28, 2, 4);
    SliceOfSlice(b, 20, 28, 4, 8);
  }

  lemma FrameFieldsAt(b: seq<byte>, h: HeaderFields)
    requires FieldsFit(h) && b == Serialise(h)
    ensures b[28..32] == ToLE(h.byteRate, 4) && b[32..34] == ToLE(h.blockAlign, 2) && b[34..36] == ToLE(h.bitsPerSample, 2)
  {
    Split3(Descriptor(h), FmtChunk(h), DataHead(h));
    Split3(FmtTag() + ToLE(h.fmtSize, 4), StreamFields(h), FrameFields(h));
    var f := FmtChunk(h);
    assert b[12..36] == f;
    SliceOfSlice(b, 12, 36, 16, 24);
    var ff := FrameFields(h);
    assert b[28..36] == ff;
    Split3(ToLE(h.byteRate, 4), ToLE(h.blockAlign, 2), ToLE(h.bitsPerSample, 2));
    SliceOfSlice(b, 28, 36, 0, 4);
    SliceOfSlice(b, 28, 36, 4, 6);
    SliceOfSlice(b, 28, 36, 6, 8);
  }

  lemma DataHeadAt(b: seq<byte>, h: HeaderFields)
    requires FieldsFit(h) && b == Serialise(h)
    ensures b[36..40] == DataTag() && b[40..44] == ToLE(h.dataSize, 4)
  {
    Split3(Descriptor(h), FmtChunk(h), DataHead(h));
    Split3(DataTag(), ToLE(h.dataSize, 4), []);
    assert b[36..44] == DataHead(h);
    SliceOfSlice(b, 36, 44, 0, 4);
    SliceOfSlice(b, 36, 44, 4, 8);
  }

  /**
    The header pins down the stream parameters: equal headers come from the
    same channel count, sample rate and format, and from the same sample
    count whenever a frame is not empty.
   */
  lemma HeaderDeterminesParameters(
    n1: nat, c1: int, r1: int, f1: SampleFormat,
    n2: nat, c2: int, r2: int, f2: SampleFormat)
    requires HeaderFits(n1, c1, r1, f1) && HeaderFits(n2, c2, r2, f2)
    requires Header(n1, c1, r1, f1) == Header(n2, c2, r2, f2)
    ensures c1 == c2 && r1 == r2 && f1 == f2
    ensures BlockAlign(c1, f1) > 0 ==> n1 == n2
  {
    HeaderRoundTrip(n1, c1, r1, f1);
    HeaderRoundTrip(n2, c2, r2, f2);
    assert FieldsFor(n1, c1, r1, f1) == FieldsFor(n2, c2, r2, f2);
    FormatDeterminedByTagAndBits(f1, f2);
    if BlockAlign(c1, f1) > 0 {
      MulCancel(n1, n2, BlockAlign(c1, f1));
    }
  }

  lemma MulCancel(a: nat, b: nat, k: int)
    requires k > 0 && a * k == b * k
    ensures a == b
  {
  }

  /**
    The provisional header written on opening and the final one written on
    closing agree everywhere except in the RIFF size (bytes 4..8) and the
    data size (bytes 40..44).
   */
  lemma ProvisionalDiffersOnlyInSizes(n: nat, c: int, r: int, f: SampleFormat)
    requires HeaderFits(n, c, r, f)
    ensures HeaderFits(0, c, r, f)
    ensures var h0, h := Header(0, c, r, f).value, Header(n, c, r, f).value;
      && (forall i :: 0 <= i < HeaderSize && !(4 <= i < 8) && !(40 <= i < 44) ==> h0[i] == h[i])
      && FromLE(h0[4..8]) == 36 && FromLE(h0[40..44]) == 0
  {
    HeaderFitsIff(n, c, r, f);
    HeaderFitsIff(0, c, r, f);
    HeaderRoundTrip(0, c, r, f);
    SerialiseDiffersOnlyInSizes(FieldsFor(0, c, r, f), FieldsFor(n, c, r, f));
  }

  lemma SerialiseDiffersOnlyInSizes(a: HeaderFields, b: HeaderFields)
    requires FieldsFit(a) && FieldsFit(b)
    requires a.(riffSize := b.riffSize, dataSize := b.dataSize) == b
    ensures forall i :: 0 <= i < HeaderSize && !(4 <= i < 8) && !(40 <= i < 44) ==> Serialise(a)[i] == Serialise(b)[i]
  {
    assert FmtChunk(a) == FmtChunk(b);
    assert Descriptor(a)[..4] == Descriptor(b)[..4] && Descriptor(a)[8..] == Descriptor(b)[8..];
    assert DataHead(a)[..4] == DataHead(b)[..4];
  }
}
