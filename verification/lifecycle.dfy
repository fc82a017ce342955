/**
  Whole writer sessions: open, append a sequence of frames, close. The folds
  below stop at the first frame that raises, as a caller's loop does when an
  exception escapes it.
 */
module WriterLifecycle {
  import opened Results
  import opened Bytes
  import opened SampleFormats
  import opened WaveHeader
  import opened WavWriter

  /** The frames packed back to back, or the error of the first frame that cannot be packed. */
  function EncodeFrames(numChannels: int, format: SampleFormat, frames: seq<seq<Value>>, packFloat: FloatPacker): (r: Result<seq<byte>, Error>)
    ensures r.Ok? <==> forall k :: 0 <= k < |frames| ==> PackFrame(numChannels, format, frames[k], packFloat).Ok?
    ensures r.Ok? ==> |r.value| == |frames| * BlockAlign(numChannels, format)
  {
    if |frames| == 0 then Ok([])
    else
      match PackFrame(numChannels, format, frames[0], packFloat)
      case Err(e) => Err(e)
      case Ok(b) =>
        match EncodeFrames(numChannels, format, frames[1..], packFloat)
        case Err(e) =>
          assert forall k :: 0 <= k < |frames| - 1 ==> frames[1..][k] == frames[k + 1];
          Err(e)
        case Ok(rest) =>
          assert forall k :: 1 <= k < |frames| ==> frames[k] == frames[1..][k - 1];
          MulSucc(|frames| - 1, BlockAlign(numChannels, format));
          Ok(b + rest)
  }

  /** `for frame in frames: writer.append_raw_sample(*frame)`. */
  function AppendAllRaw(w: Writer, frames: seq<seq<Value>>, packFloat: FloatPacker): (s: Step)
    ensures s.writer.numChannels == w.numChannels && s.writer.format == w.format
    ensures s.writer.sampleRate == w.sampleRate && s.writer.isOpen == w.isOpen
    ensures s.raised.None? ==> s.writer.numSamples == w.numSamples + |frames|
    decreases |frames|
  {
    if |frames| == 0 then Step(w, None)
    else
      var first := AppendRaw(w, frames[0], packFloat);
      if first.raised.Some? then first
      else AppendAllRaw(first.writer, frames[1..], packFloat)
  }

  /**
    A run of appends on an open writer succeeds exactly when every frame
    packs, and then the file is the old file followed by the packed frames.
   */
  lemma {:induction false} AppendAllRawContents(w: Writer, frames: seq<seq<Value>>, packFloat: FloatPacker)
    requires Valid(w) && w.isOpen
    ensures var s := AppendAllRaw(w, frames, packFloat);
      && (s.raised.None? <==> EncodeFrames(w.numChannels, w.format, frames, packFloat).Ok?)
      && (s.raised.None? ==>
            && Valid(s.writer)
            && s.writer.file.bytes == w.file.bytes + EncodeFrames(w.numChannels, w.format, frames, packFloat).value)
    decreases |frames|
  {
    if |frames| > 0 {
      var encoded := EncodeFrames(w.numChannels, w.format, frames, packFloat);
      var frame := PackFrame(w.numChannels, w.format, frames[0], packFloat);
      var first := AppendRaw(w, frames[0], packFloat);
      assert AppendAllRaw(w, frames, packFloat)
          == if first.raised.Some? then first else AppendAllRaw(first.writer, frames[1..], packFloat);
      if first.raised.None? {
        var w1 := first.writer;
        assert Valid(w1) && w1.isOpen && w1.numChannels == w.numChannels && w1.format == w.format;
        assert w1.file.bytes == w.file.bytes + frame.value;
        AppendAllRawContents(w1, frames[1..], packFloat);
        var rest := EncodeFrames(w.numChannels, w.format, frames[1..], packFloat);
        EncodeFramesStep(w.numChannels, w.format, frames, packFloat);
        if rest.Ok? {
          assert encoded.value == frame.value + rest.value;
          ConcatAssoc(w.file.bytes, frame.value, rest.value);
        }
      } else {
        assert frame.Err?;
      }
    }
  }

  /** Encoding a non-empty run packs its first frame, then the rest. */
  lemma EncodeFramesStep(numChannels: int, format: SampleFormat, frames: seq<seq<Value>>, packFloat: FloatPacker)
    requires |frames| > 0
    ensures var e, first, rest :=
        EncodeFrames(numChannels, format, frames, packFloat),
        PackFrame(numChannels, format, frames[0], packFloat),
        EncodeFrames(numChannels, format, frames[1..], packFloat);
      && (e.Ok? <==> first.Ok? && rest.Ok?)
      && (e.Ok? ==> e.value == first.value + rest.value)
  {
  }

  /** `for frame in frames: writer.append_sample(*frame)`. */
  function AppendAllSamples(w: Writer, frames: seq<seq<Value>>, packFloat: FloatPacker): (s: Step)
    ensures s.writer.numChannels == w.numChannels && s.writer.format == w.format
    ensures s.writer.sampleRate == w.sampleRate && s.writer.isOpen == w.isOpen
    ensures s.raised.None? ==> s.writer.numSamples == w.numSamples + |frames|
    decreases |frames|
  {
    if |frames| == 0 then Step(w, None)
    else
      var first := AppendSample(w, frames[0], packFloat);
      if first.raised.Some? then first
      else AppendAllSamples(first.writer, frames[1..], packFloat)
  }

  /**
    With an integer format, appending amplitudes never raises on an open
    writer as long as every frame has one value per channel, and the file
    grows by exactly one block per frame.
   */
  lemma {:induction false} AppendAllSamplesPcm(w: Writer, frames: seq<seq<Value>>, packFloat: FloatPacker)
    requires Valid(w) && w.isOpen
    requires w.format == UInt8 || w.format == Int16
    requires forall k :: 0 <= k < |frames| ==> |frames[k]| == w.numChannels
    ensures var s := AppendAllSamples(w, frames, packFloat);
      && s.raised.None?
      && Valid(s.writer)
      && s.writer.isOpen
      && s.writer.numSamples == w.numSamples + |frames|
    decreases |frames|
  {
    if |frames| > 0 {
      var first := AppendSample(w, frames[0], packFloat);
      AppendSamplePcmStep(w, frames[0], packFloat);
      var w1 := first.writer;
      assert forall k :: 0 <= k < |frames| - 1 ==> frames[1..][k] == frames[k + 1];
      AppendAllSamplesPcm(w1, frames[1..], packFloat);
      assert AppendAllSamples(w, frames, packFloat) == AppendAllSamples(w1, frames[1..], packFloat);
    }
  }

  /**
    Open, append every frame raw, close: when every frame packs and the data
    fits the 32-bit size fields, the file is the final header followed by
    the packed frames, and its header declares exactly that much data.
   */
  lemma EndToEnd(sampleRate: int, numChannels: int, format: SampleFormat, frames: seq<seq<Value>>, packFloat: FloatPacker)
    requires HeaderFits(0, numChannels, sampleRate, format)
    requires EncodeFrames(numChannels, format, frames, packFloat).Ok?
    requires |frames| * BlockAlign(numChannels, format) < U32Limit - 36
    ensures Create(sampleRate, numChannels, format).Ok?
    ensures var appended := AppendAllRaw(Create(sampleRate, numChannels, format).value, frames, packFloat);
      && appended.raised.None?
      && var closed := Close(appended.writer);
      && closed.raised.None?
      && !closed.writer.isOpen
      && var b := closed.writer.file.bytes;
      && |b| == HeaderSize + |frames| * BlockAlign(numChannels, format)
      && Header(|frames|, numChannels, sampleRate, format) == Some(b[..HeaderSize])
      && b[HeaderSize..] == EncodeFrames(numChannels, format, frames, packFloat).value
      && ParseHeader(b[..HeaderSize]) == Some(FieldsFor(|frames|, numChannels, sampleRate, format))
  {
    var w0 := Create(sampleRate, numChannels, format).value;
    AppendAllRawContents(w0, frames, packFloat);
    var appended := AppendAllRaw(w0, frames, packFloat);
    var closed := Close(appended.writer);
    var data := EncodeFrames(numChannels, format, frames, packFloat).value;
    assert appended.writer.file.bytes == w0.file.bytes + data;
    assert closed.writer.file.bytes[HeaderSize..] == data;
    HeaderRoundTrip(|frames|, numChannels, sampleRate, format);
  }

  /**
    Five seconds of three-channel 16-bit audio at 48 kHz: 240000 frames of
    amplitudes give a 1440044-byte file whose header declares 1440000 bytes
    of data, a RIFF size of 1440036, three channels and 48000 Hz.
   */
  lemma ToneScenario(frames: seq<seq<Value>>, packFloat: FloatPacker)
    requires |frames| == 240000
    requires forall k :: 0 <= k < |frames| ==> |frames[k]| == 3
    ensures Create(48000, 3, Int16).Ok?
    ensures var appended := AppendAllSamples(Create(48000, 3, Int16).value, frames, packFloat);
      && appended.raised.None?
      && var closed := Close(appended.writer);
      && closed.raised.None?
      && var b := closed.writer.file.bytes;
      && |b| == 1440044
      && FromLE(b[4..8]) == 1440036
      && FromLE(b[40..44]) == 1440000
      && FromLE(b[22..24]) == 3
      && FromLE(b[24..28]) == 48000
  {
    ToneAppends(frames, packFloat);
    var appended := AppendAllSamples(Create(48000, 3, Int16).value, frames, packFloat);
    ToneCloses(appended.writer);
    var closed := Close(appended.writer);
    ClosedFileDescribesItself(closed.writer);
  }

  /** The 240000 appends of the tone all succeed and leave a valid open writer. */
  lemma ToneAppends(frames: seq<seq<Value>>, packFloat: FloatPacker)
    requires |frames| == 240000
    requires forall k :: 0 <= k < |frames| ==> |frames[k]| == 3
    ensures Create(48000, 3, Int16).Ok?
    ensures var appended := AppendAllSamples(Create(48000, 3, Int16).value, frames, packFloat);
      && appended.raised.None?
      && Valid(appended.writer) && appended.writer.isOpen
      && appended.writer.numSamples == 240000
      && appended.writer.numChannels == 3 && appended.writer.sampleRate == 48000 && appended.writer.format == Int16
  {
    HeaderFitsIff(0, 3, 48000, Int16);
    AppendAllSamplesPcm(Create(48000, 3, Int16).value, frames, packFloat);
  }

  /** 1440000 bytes of data fit the 32-bit size fields, so closing the tone's writer succeeds. */
  lemma ToneCloses(w: Writer)
    requires Valid(w) && w.isOpen
    requires w.numSamples == 240000 && w.numChannels == 3 && w.sampleRate == 48000 && w.format == Int16
    ensures var closed := Close(w);
      && closed.raised.None?
      && Valid(closed.writer) && !closed.writer.isOpen
      && closed.writer.numSamples == 240000
      && closed.writer.numChannels == 3 && closed.writer.sampleRate == 48000 && closed.writer.format == Int16
      && DataSize(closed.writer.numSamples, closed.writer.numChannels, closed.writer.format) == 1440000
  {
    assert DataSize(240000, 3, Int16) == 1440000;
  }

  /** The file of a normally closed writer declares in its header the sizes it really has. */
  lemma ClosedFileDescribesItself(w: Writer)
    requires Valid(w) && !w.isOpen
    ensures var b := w.file.bytes;
      && |b| == HeaderSize + DataSize(w.numSamples, w.numChannels, w.format)
      && |b| >= HeaderSize
      && b[0..4] == RiffTag() && b[8..12] == WaveTag() && b[12..16] == FmtTag() && b[36..40] == DataTag()
      && FromLE(b[4..8]) == |b| - 8
      && FromLE(b[40..44]) == |b| - HeaderSize
      && FromLE(b[22..24]) == w.numChannels
      && FromLE(b[24..28]) == w.sampleRate
      && FromLE(b[32..34]) == BlockAlign(w.numChannels, w.format)
  {
    ValidHoldsHeader(w);
    var b := w.file.bytes;
    var h := b[..HeaderSize];
    var f := FieldsFor(w.numSamples, w.numChannels, w.sampleRate, w.format);
    HeaderRoundTrip(w.numSamples, w.numChannels, w.sampleRate, w.format);
    assert ParseHeader(h) == Some(f);
    HeaderSlices(b);
    assert FromLE(h[4..8]) == f.riffSize == 36 + DataSize(w.numSamples, w.numChannels, w.format);
    assert FromLE(h[40..44]) == f.dataSize;
  }

  /** The fields of a header are the same slices of the file that starts with it. */
  lemma HeaderSlices(b: seq<byte>)
    requires |b| >= HeaderSize
    ensures var h := b[..HeaderSize];
      && h[0..4] == b[0..4] && h[4..8] == b[4..8] && h[8..12] == b[8..12] && h[12..16] == b[12..16]
      && h[22..24] == b[22..24] && h[24..28] == b[24..28] && h[32..34] == b[32..34]
      && h[36..40] == b[36..40] && h[40..44] == b[40..44]
  {
    var h := b[..HeaderSize];
    assert h[0..4] == b[0..4];
    assert h[4..8] == b[4..8];
    assert h[8..12] == b[8..12];
    assert h[12..16] == b[12..16];
    assert h[22..24] == b[22..24];
    assert h[24..28] == b[24..28];
    assert h[32..34] == b[32..34];
    assert h[36..40] == b[36..40];
    assert h[40..44] == b[40..44];
  }
}
