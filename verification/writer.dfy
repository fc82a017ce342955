/**
  The WAV file writer as a state machine over an in-memory file. Opening a
  writer writes a provisional header for zero samples; every appended frame
  adds `numChannels` samples at the write position and bumps the sample
  count; closing seeks back to offset 0 and writes the header again with the
  final count. Exceptions raised by the Python writer become a `Step` whose `raised`
  field names the error, together with the state the writer is left in.
 */
module WavWriter {
  import opened Results
  import opened Bytes
  import opened SampleFormats
  import opened WaveHeader

  /** A sample value as a caller passes it: a Python `int` or a `float`. */
  datatype Value = Int(i: int) | Float(x: real)

  /** The number a value denotes, as used by arithmetic and by the 'f'/'d' codes. */
  function AsReal(v: Value): real {
    match v
    case Int(i) => i as real
    case Float(x) => x
  }

  datatype Error =
    | AlreadyClosed          // RuntimeError: append or close on a closed writer
    | ItemCountMismatch      // struct.error: the frame does not hold one value per channel
    | IntegerOutOfRange      // struct.error: an integer outside the range of 'B' or 'h'
    | NotAnInteger           // struct.error: a float given to 'B' or 'h'
    | FloatOutOfRange        // OverflowError: a value too large for 'f'
    | HeaderFieldOutOfRange  // struct.error: a header field does not fit its width

  /**
    The IEEE-754 encoder behind struct.pack's 'f' and 'd' codes, taking a
    value and a width of 4 or 8 bytes. Its bit patterns are not modelled;
    what the writer relies on is that an accepted value fills exactly the
    requested width, that the 8-byte 'd' code accepts every value, and that
    the 4-byte 'f' code accepts every value within the single-precision
    range. `None` stands for the OverflowError that 'f' raises beyond it.
   */
  type FloatPacker = p: (real, nat) -> Option<seq<byte>>
    | && (forall x: real, w: nat :: p(x, w).Some? ==> |p(x, w).value| == w)
      && (forall x: real :: p(x, 8).Some?)
      && (forall x: real :: -F32Max <= x <= F32Max ==> p(x, 4).Some?)
    witness (x: real, w: nat) => Some(seq(w, i => 0))

  /** The largest finite single-precision value, (2 - 2^-23) * 2^127 = 2^128 - 2^104. */
  const F32Max: real := 340282346638528859811704183484516925440.0

  /** A file opened for binary writing: its contents and the current position. */
  datatype File = File(bytes: seq<byte>, pos: nat)

  function Zeros(n: nat): (r: seq<byte>)
    ensures |r| == n && forall i :: 0 <= i < n ==> r[i] == 0
  {
    seq(n, i => 0)
  }

  /**
    `file.write(data)`: the bytes at the position are overwritten, the file
    grows when the data runs past its end (a gap before the position reads
    as zeros), and the position moves past the data.
   */
  function Write(f: File, data: seq<byte>): (r: File)
    ensures r.pos == f.pos + |data|
    ensures |r.bytes| == (if f.pos + |data| <= |f.bytes| then |f.bytes| else f.pos + |data|)
    ensures forall i :: 0 <= i < |r.bytes| ==>
      r.bytes[i] == (if f.pos <= i < f.pos + |data| then data[i - f.pos] else if i < |f.bytes| then f.bytes[i] else 0)
  {
    var before := if f.pos <= |f.bytes| then f.bytes[..f.pos] else f.bytes + Zeros(f.pos - |f.bytes|);
    var after := if f.pos + |data| < |f.bytes| then f.bytes[f.pos + |data|..] else [];
    File(before + data + after, f.pos + |data|)
  }

  /** Writing at the end of a file appends. */
  lemma WriteAtEnd(f: File, data: seq<byte>)
    requires f.pos == |f.bytes|
    ensures Write(f, data) == File(f.bytes + data, |f.bytes| + |data|)
  {
    assert Write(f, data).bytes == f.bytes + data;
  }

  /** Writing at offset 0 replaces a prefix and keeps the rest. */
  lemma WriteAtStart(f: File, data: seq<byte>)
    requires f.pos == 0 && |data| <= |f.bytes|
    ensures Write(f, data) == File(data + f.bytes[|data|..], |data|)
  {
    assert Write(f, data).bytes == data + f.bytes[|data|..];
  }

  datatype Writer = Writer(
    sampleRate: int, numChannels: int, format: SampleFormat,
    numSamples: nat, file: File, isOpen: bool)

  /** The writer after an operation, and the exception the operation raised, if any. */
  datatype Step = Step(writer: Writer, raised: Option<Error>)

  /**
    The states a writer reaches by opening, appending and closing normally:
    the file holds a header followed by exactly `numSamples` frames; while
    open the position is at the end and the header is the provisional one,
    once closed the header is the final one.
   */
  predicate Valid(w: Writer) {
    && HeaderFits(0, w.numChannels, w.sampleRate, w.format)
    && |w.file.bytes| == HeaderSize + DataSize(w.numSamples, w.numChannels, w.format)
    && (w.isOpen ==>
          && w.file.pos == |w.file.bytes|
          && Header(0, w.numChannels, w.sampleRate, w.format) == Some(w.file.bytes[..HeaderSize]))
    && (!w.isOpen ==>
          Header(w.numSamples, w.numChannels, w.sampleRate, w.format) == Some(w.file.bytes[..HeaderSize]))
  }

  /** `WavFileWriter(filename, sample_rate, num_channels, sample_format)`. */
  function Create(sampleRate: int, numChannels: int, format: SampleFormat): (r: Result<Writer, Error>)
    ensures r.Ok? <==> HeaderFits(0, numChannels, sampleRate, format)
    ensures r.Err? ==> r.error == HeaderFieldOutOfRange
    ensures r.Ok? ==>
      && r.value.isOpen
      && r.value.numSamples == 0
      && r.value.sampleRate == sampleRate && r.value.numChannels == numChannels && r.value.format == format
      && Header(0, numChannels, sampleRate, format) == Some(r.value.file.bytes)
      && r.value.file.pos == HeaderSize
      && Valid(r.value)
  {
    match Header(0, numChannels, sampleRate, format)
    case None => Err(HeaderFieldOutOfRange)
    case Some(h) =>
      var w := Writer(sampleRate, numChannels, format, 0, Write(File([], 0), h), true);
      OpenedIsValid(w, h);
      Ok(w)
  }

  lemma OpenedIsValid(w: Writer, h: seq<byte>)
    requires Header(0, w.numChannels, w.sampleRate, w.format) == Some(h)
    requires w.numSamples == 0 && w.isOpen && w.file == Write(File([], 0), h)
    ensures w.file == File(h, HeaderSize)
    ensures Valid(w)
  {
    WriteAtEnd(File([], 0), h);
    assert h[..HeaderSize] == h;
    assert DataSize(0, w.numChannels, w.format) == 0;
  }

  /** One value packed with the format's `struct` code. */
  function PackValue(format: SampleFormat, v: Value, packFloat: FloatPacker): (r: Result<seq<byte>, Error>)
    ensures r.Ok? ==> |r.value| == BytesPerSample(format)
    ensures format == UInt8 ==> (r.Ok? <==> v.Int? && 0 <= v.i < 256)
    ensures format == Int16 ==> (r.Ok? <==> v.Int? && -32768 <= v.i < 32768)
    ensures format == UInt8 && r.Ok? ==> FromLE(r.value) == v.i
    ensures format == Int16 && r.Ok? ==> FromLESigned(r.value) == v.i
    ensures (format == UInt8 || format == Int16) && r.Err? ==>
      r.error == (if v.Float? then NotAnInteger else IntegerOutOfRange)
    ensures (format == Float32 || format == Float64) ==>
      (r.Ok? <==> packFloat(AsReal(v), BytesPerSample(format)).Some?)
      && (r.Ok? ==> r.value == packFloat(AsReal(v), BytesPerSample(format)).value)
      && (r.Err? ==> r.error == FloatOutOfRange)
    ensures format == Float64 ==> r.Ok?
    ensures format == Float32 && -F32Max <= AsReal(v) <= F32Max ==> r.Ok?
  {
    match Info(format).packCode
    case UnsignedByte =>
      if v.Float? then Err(NotAnInteger)
      else (match PackUnsigned(v.i, 1)
            case Some(b) => Ok(b)
            case None => Err(IntegerOutOfRange))
    case SignedShort =>
      if v.Float? then Err(NotAnInteger)
      else (match PackSigned(v.i, 2)
            case Some(b) => Ok(b)
            case None => Err(IntegerOutOfRange))
    case _ =>
      match packFloat(AsReal(v), BytesPerSample(format))
      case Some(b) => Ok(b)
      case None => Err(FloatOutOfRange)
  }

  /** The values of a frame packed one after the other; the first value that cannot be packed raises. */
  function PackValues(format: SampleFormat, vs: seq<Value>, packFloat: FloatPacker): (r: Result<seq<byte>, Error>)
    ensures r.Ok? <==> forall i :: 0 <= i < |vs| ==> PackValue(format, vs[i], packFloat).Ok?
    ensures r.Ok? ==> |r.value| == |vs| * BytesPerSample(format)
    ensures r.Err? ==> exists i :: 0 <= i < |vs| && PackValue(format, vs[i], packFloat) == Err(r.error) &&
                                   (forall j :: 0 <= j < i ==> PackValue(format, vs[j], packFloat).Ok?)
  {
    if |vs| == 0 then Ok([])
    else
      match PackValue(format, vs[0], packFloat)
      case Err(e) => Err(e)
      case Ok(b) =>
        match PackValues(format, vs[1..], packFloat)
        case Err(e) =>
          assert forall i :: 0 <= i < |vs| - 1 ==> vs[1..][i] == vs[i + 1];
          Err(e)
        case Ok(rest) =>
          assert forall i :: 1 <= i < |vs| ==> vs[i] == vs[1..][i - 1];
          MulSucc(|vs| - 1, BytesPerSample(format));
          Ok(b + rest)
  }

  /** `b` holds, in order, the `n`-byte packings of the values of `vs`. */
  predicate HoldsBlocks(format: SampleFormat, vs: seq<Value>, b: seq<byte>, n: nat, packFloat: FloatPacker) {
    forall i :: 0 <= i < |vs| ==>
      && 0 <= i * n && i * n + n <= |b|
      && PackValue(format, vs[i], packFloat) == Ok(b[i * n..i * n + n])
  }

  /** Value i of a packed frame occupies bytes i * width .. i * width + width, in channel order. */
  lemma {:induction false} PackValuesBlocks(format: SampleFormat, vs: seq<Value>, packFloat: FloatPacker)
    requires PackValues(format, vs, packFloat).Ok?
    ensures HoldsBlocks(format, vs, PackValues(format, vs, packFloat).value, BytesPerSample(format), packFloat)
  {
    if |vs| > 0 {
      var n := BytesPerSample(format);
      PackValuesBlocks(format, vs[1..], packFloat);
      var head := PackValue(format, vs[0], packFloat).value;
      var rest := PackValues(format, vs[1..], packFloat).value;
      assert PackValues(format, vs, packFloat).value == head + rest;
      BlocksAfterHead(format, n, vs, head, rest, packFloat);
    }
  }

  /** A slice of `rest` sits |head| places further on in `head + rest`. */
  lemma ShiftSlice(head: seq<byte>, rest: seq<byte>, k: int, m: int)
    requires 0 <= k && 0 <= m && k + m <= |rest|
    ensures (head + rest)[|head| + k..|head| + k + m] == rest[k..k + m]
  {
    var a, b := (head + rest)[|head| + k..|head| + k + m], rest[k..k + m];
    forall j | 0 <= j < m
      ensures a[j] == b[j]
    {
      assert a[j] == (head + rest)[|head| + k + j];
    }
  }

  /** The blocks of `head + rest` are `head`, then the blocks of `rest`, `n` bytes each. */
  lemma BlocksAfterHead(format: SampleFormat, n: nat, vs: seq<Value>, head: seq<byte>, rest: seq<byte>, packFloat: FloatPacker)
    requires |vs| > 0 && |head| == n && PackValue(format, vs[0], packFloat) == Ok(head)
    requires HoldsBlocks(format, vs[1..], rest, n, packFloat)
    ensures HoldsBlocks(format, vs, head + rest, n, packFloat)
  {
    forall i | 0 <= i < |vs|
      ensures 0 <= i * n && i * n + n <= |head + rest|
      ensures PackValue(format, vs[i], packFloat) == Ok((head + rest)[i * n..i * n + n])
    {
      if i == 0 {
        assert (head + rest)[0..n] == head;
      } else {
        MulSucc(i - 1, n);
        var k := (i - 1) * n;
        assert i * n == k + n;
        assert vs[i] == vs[1..][i - 1];
        assert PackValue(format, vs[1..][i - 1], packFloat) == Ok(rest[k..k + n]);
        ShiftSlice(head, rest, k, n);
      }
    }
  }

  /**
    `struct.pack(sample_struct_format, *sample)`: the count check against
    the channel count comes first, then the values in order.
   */
  function PackFrame(numChannels: int, format: SampleFormat, values: seq<Value>, packFloat: FloatPacker): (r: Result<seq<byte>, Error>)
    ensures |values| != numChannels ==> r == Err(ItemCountMismatch)
    ensures r.Ok? <==> |values| == numChannels && forall i :: 0 <= i < |values| ==> PackValue(format, values[i], packFloat).Ok?
    ensures r.Ok? ==> |r.value| == BlockAlign(numChannels, format)
    ensures |values| == numChannels ==> r == PackValues(format, values, packFloat)
  {
    if |values| != numChannels then Err(ItemCountMismatch)
    else PackValues(format, values, packFloat)
  }

  /** `append_raw_sample(*values)`: values already in the on-disk range. */
  function AppendRaw(w: Writer, values: seq<Value>, packFloat: FloatPacker): (s: Step)
    ensures !w.isOpen ==> s == Step(w, Some(AlreadyClosed))
    ensures w.isOpen && |values| != w.numChannels ==> s == Step(w, Some(ItemCountMismatch))
    ensures s.raised.None? <==> w.isOpen && PackFrame(w.numChannels, w.format, values, packFloat).Ok?
    ensures s.raised.Some? ==> s.writer == w
    ensures w.isOpen && PackFrame(w.numChannels, w.format, values, packFloat).Err? ==>
      s.raised == Some(PackFrame(w.numChannels, w.format, values, packFloat).error)
    ensures s.raised.None? ==>
      && s.writer == w.(numSamples := w.numSamples + 1, file := Write(w.file, PackFrame(w.numChannels, w.format, values, packFloat).value))
      && |PackFrame(w.numChannels, w.format, values, packFloat).value| == BlockAlign(w.numChannels, w.format)
    ensures Valid(w) && s.raised.None? ==>
      && Valid(s.writer)
      && s.writer.file.bytes == w.file.bytes + PackFrame(w.numChannels, w.format, values, packFloat).value
  {
    if !w.isOpen then Step(w, Some(AlreadyClosed))
    else
      match PackFrame(w.numChannels, w.format, values, packFloat)
      case Err(e) => Step(w, Some(e))
      case Ok(frame) =>
        var w' := w.(numSamples := w.numSamples + 1, file := Write(w.file, frame));
        if Valid(w) then
          AppendKeepsValid(w, frame);
          Step(w', None)
        else
          Step(w', None)
  }

  /** Appending one frame of `BlockAlign` bytes to a valid open writer keeps it valid. */
  lemma AppendKeepsValid(w: Writer, frame: seq<byte>)
    requires Valid(w) && w.isOpen
    requires |frame| == BlockAlign(w.numChannels, w.format)
    ensures Write(w.file, frame) == File(w.file.bytes + frame, |w.file.bytes| + |frame|)
    ensures Valid(w.(numSamples := w.numSamples + 1, file := Write(w.file, frame)))
  {
    ValidHoldsHeader(w);
    WriteAtEnd(w.file, frame);
    var w' := w.(numSamples := w.numSamples + 1, file := Write(w.file, frame));
    assert w'.file.bytes == w.file.bytes + frame;
    assert w'.file.bytes[..HeaderSize] == w.file.bytes[..HeaderSize];
    DataSizeStep(w.numSamples, w.numChannels, w.format);
    assert |w'.file.bytes| == HeaderSize + DataSize(w'.numSamples, w'.numChannels, w'.format);
    assert w'.file.pos == |w'.file.bytes|;
  }

  /** The file of a valid writer is at least a header long. */
  lemma ValidHoldsHeader(w: Writer)
    requires Valid(w)
    ensures 0 <= BlockAlign(w.numChannels, w.format)
    ensures 0 <= DataSize(w.numSamples, w.numChannels, w.format)
    ensures |w.file.bytes| >= HeaderSize
  {
    HeaderFitsIff(0, w.numChannels, w.sampleRate, w.format);
    MulNonnegative(w.numSamples, BlockAlign(w.numChannels, w.format));
  }

  lemma DataSizeStep(n: nat, numChannels: int, format: SampleFormat)
    ensures DataSize(n + 1, numChannels, format) == DataSize(n, numChannels, format) + BlockAlign(numChannels, format)
  {
  }

  /** The normalised values mapped onto the format's on-disk range; float formats pass them through. */
  function Convert(format: SampleFormat, values: seq<Value>): (r: seq<Value>)
    ensures |r| == |values|
    ensures format == UInt8 ==> forall i :: 0 <= i < |r| ==> r[i] == Int(UInt8Convert(AsReal(values[i])))
    ensures format == Int16 ==> forall i :: 0 <= i < |r| ==> r[i] == Int(Int16Convert(AsReal(values[i])))
    ensures format == Float32 || format == Float64 ==> r == values
  {
    match format
    case UInt8 => seq(|values|, i requires 0 <= i < |values| => Int(UInt8Convert(AsReal(values[i]))))
    case Int16 => seq(|values|, i requires 0 <= i < |values| => Int(Int16Convert(AsReal(values[i]))))
    case _ => values
  }

  /** `append_sample(*values)`: values are amplitudes, nominally in [-1, +1]. */
  function AppendSample(w: Writer, values: seq<Value>, packFloat: FloatPacker): (s: Step)
    ensures (w.format == Float32 || w.format == Float64) ==> s == AppendRaw(w, values, packFloat)
    ensures !w.isOpen ==> s == Step(w, Some(AlreadyClosed))
    ensures w.isOpen && |values| != w.numChannels ==> s == Step(w, Some(ItemCountMismatch))
    ensures s.raised.Some? ==> s.writer == w
    ensures (w.format == UInt8 || w.format == Int16 || w.format == Float64) ==>
      (s.raised.None? <==> w.isOpen && |values| == w.numChannels)
    ensures w.format == Float32 && (forall i :: 0 <= i < |values| ==> -F32Max <= AsReal(values[i]) <= F32Max) ==>
      (s.raised.None? <==> w.isOpen && |values| == w.numChannels)
  {
    var converted := Convert(w.format, values);
    assert w.format == UInt8 || w.format == Int16 ==>
      forall i :: 0 <= i < |converted| ==> PackValue(w.format, converted[i], packFloat).Ok?;
    AppendRaw(w, converted, packFloat)
  }

  /** One `append_sample` of a full frame on a valid open integer-format writer. */
  lemma AppendSamplePcmStep(w: Writer, values: seq<Value>, packFloat: FloatPacker)
    requires Valid(w) && w.isOpen && |values| == w.numChannels
    requires w.format == UInt8 || w.format == Int16
    ensures var s := AppendSample(w, values, packFloat);
      && s.raised.None?
      && Valid(s.writer)
      && s.writer.isOpen
      && s.writer.sampleRate == w.sampleRate && s.writer.numChannels == w.numChannels && s.writer.format == w.format
      && s.writer.numSamples == w.numSamples + 1
      && |s.writer.file.bytes| == |w.file.bytes| + BlockAlign(w.numChannels, w.format)
  {
  }

  /** `close()`: seek to 0, write the final header, close the file. */
  function Close(w: Writer): (s: Step)
    ensures !w.isOpen ==> s == Step(w, Some(AlreadyClosed))
    ensures w.isOpen ==>
      (s.raised.None? <==> HeaderFits(w.numSamples, w.numChannels, w.sampleRate, w.format))
    ensures w.isOpen && s.raised.Some? ==>
      && s.raised == Some(HeaderFieldOutOfRange)
      && s.writer == w.(file := w.file.(pos := 0))
    ensures w.isOpen && s.raised.None? ==>
      && !s.writer.isOpen
      && s.writer.numSamples == w.numSamples
      && s.writer.sampleRate == w.sampleRate && s.writer.numChannels == w.numChannels && s.writer.format == w.format
    ensures Valid(w) && w.isOpen ==>
      (s.raised.None? <==> DataSize(w.numSamples, w.numChannels, w.format) < U32Limit - 36)
    ensures Valid(w) && w.isOpen && s.raised.None? ==>
      && Valid(s.writer)
      && |s.writer.file.bytes| == |w.file.bytes|
      && Header(w.numSamples, w.numChannels, w.sampleRate, w.format) == Some(s.writer.file.bytes[..HeaderSize])
      && s.writer.file.bytes[HeaderSize..] == w.file.bytes[HeaderSize..]
  {
    if !w.isOpen then Step(w, Some(AlreadyClosed))
    else
      var rewound := w.(file := w.file.(pos := 0));
      match Header(w.numSamples, w.numChannels, w.sampleRate, w.format)
      case None =>
        if Valid(w) then
          FinalHeaderFits(w);
          Step(rewound, Some(HeaderFieldOutOfRange))
        else
          Step(rewound, Some(HeaderFieldOutOfRange))
      case Some(h) =>
        var w' := rewound.(file := Write(rewound.file, h), isOpen := false);
        if Valid(w) then
          FinalHeaderFits(w);
          WriteAtStart(rewound.file, h);
          assert w'.file.bytes[..HeaderSize] == h;
          Step(w', None)
        else
          Step(w', None)
  }

  /** For a writer that opened, only the two size fields can keep the final header from fitting. */
  lemma FinalHeaderFits(w: Writer)
    requires Valid(w)
    ensures HeaderFits(w.numSamples, w.numChannels, w.sampleRate, w.format)
        <==> DataSize(w.numSamples, w.numChannels, w.format) < U32Limit - 36
  {
    HeaderFitsIff(0, w.numChannels, w.sampleRate, w.format);
    HeaderFitsIff(w.numSamples, w.numChannels, w.sampleRate, w.format);
  }

  /** An unsigned 8-bit frame holds one byte per value, each equal to the value. */
  lemma {:induction false} UInt8FrameDecodes(vs: seq<Value>, packFloat: FloatPacker)
    requires PackValues(UInt8, vs, packFloat).Ok?
    ensures var b := PackValues(UInt8, vs, packFloat).value;
      forall i :: 0 <= i < |vs| ==> vs[i] == Int(b[i])
  {
    if |vs| > 0 {
      var head := PackValue(UInt8, vs[0], packFloat).value;
      UInt8FrameDecodes(vs[1..], packFloat);
      var b := PackValues(UInt8, vs, packFloat).value;
      var rest := PackValues(UInt8, vs[1..], packFloat).value;
      assert b == head + rest;
      assert FromLE(head) == head[0] by { assert head[1..] == []; }
      forall i | 1 <= i < |vs|
        ensures vs[i] == Int(b[i])
      {
        assert vs[i] == vs[1..][i - 1];
      }
    }
  }

  /** A signed 16-bit frame holds two bytes per value, each pair decoding to the value. */
  lemma {:induction false} Int16FrameDecodes(vs: seq<Value>, packFloat: FloatPacker)
    requires PackValues(Int16, vs, packFloat).Ok?
    ensures var b := PackValues(Int16, vs, packFloat).value;
      forall i :: 0 <= i < |vs| ==> vs[i] == Int(FromLESigned(b[2 * i..2 * i + 2]))
  {
    if |vs| > 0 {
      var head := PackValue(Int16, vs[0], packFloat).value;
      Int16FrameDecodes(vs[1..], packFloat);
      var b := PackValues(Int16, vs, packFloat).value;
      var rest := PackValues(Int16, vs[1..], packFloat).value;
      assert b == head + rest;
      assert b[0..2] == head;
      forall i | 1 <= i < |vs|
        ensures vs[i] == Int(FromLESigned(b[2 * i..2 * i + 2]))
      {
        assert vs[i] == vs[1..][i - 1];
        PairAfterHead(head, rest, i);
      }
    }
  }

  /** The i-th byte pair of `head + rest`, where `head` is one pair, is the (i-1)-th pair of `rest`. */
  lemma PairAfterHead(head: seq<byte>, rest: seq<byte>, i: int)
    requires |head| == 2 && 1 <= i && 2 * i + 2 <= |rest| + 2
    ensures (head + rest)[2 * i..2 * i + 2] == rest[2 * (i - 1)..2 * (i - 1) + 2]
  {
    var k := 2 * (i - 1);
    assert 2 * i == k + 2;
    assert (head + rest)[k + 2..k + 4] == rest[k..k + 2];
  }

  /**
    `append_sample` on an open writer stores, after the existing bytes, the
    converted value of every channel in channel order.
   */
  lemma AppendSampleStoresConverted(w: Writer, values: seq<Value>, packFloat: FloatPacker)
    requires Valid(w) && w.isOpen && |values| == w.numChannels
    requires w.format == UInt8 || w.format == Int16
    ensures var s := AppendSample(w, values, packFloat);
      && s.raised.None?
      && |s.writer.file.bytes| == |w.file.bytes| + BlockAlign(w.numChannels, w.format)
      && s.writer.file.bytes[..|w.file.bytes|] == w.file.bytes
      && var frame := s.writer.file.bytes[|w.file.bytes|..];
      && (w.format == UInt8 ==>
            forall i :: 0 <= i < |values| ==> frame[i] == UInt8Convert(AsReal(values[i])))
      && (w.format == Int16 ==>
            forall i :: 0 <= i < |values| ==> FromLESigned(frame[2 * i..2 * i + 2]) == Int16Convert(AsReal(values[i])))
  {
    var converted := Convert(w.format, values);
    var s := AppendSample(w, values, packFloat);
    var frame := PackValues(w.format, converted, packFloat).value;
    assert s.writer.file.bytes == w.file.bytes + frame;
    assert s.writer.file.bytes[|w.file.bytes|..] == frame;
    if w.format == UInt8 {
      UInt8FrameDecodes(converted, packFloat);
    } else {
      Int16FrameDecodes(converted, packFloat);
    }
  }

  /** A closed writer refuses both further appends and a second close, and stays as it is. */
  lemma ClosedWriterRaises(w: Writer, values: seq<Value>, packFloat: FloatPacker)
    requires w.isOpen && Close(w).raised.None?
    ensures var c := Close(w).writer;
      && Close(c) == Step(c, Some(AlreadyClosed))
      && AppendRaw(c, values, packFloat) == Step(c, Some(AlreadyClosed))
      && AppendSample(c, values, packFloat) == Step(c, Some(AlreadyClosed))
  {
  }

  /**
    When the final header does not fit (more than 2^32 - 37 bytes of data),
    `close` raises after seeking to offset 0 and leaves the writer open, so
    the next successful append writes its frame over the start of the header
    instead of after the data, and the file stops matching its sample count.
   */
  lemma AppendAfterFailedClose(w: Writer, values: seq<Value>, packFloat: FloatPacker)
    requires Valid(w) && w.isOpen
    requires Close(w).raised.Some?
    requires AppendRaw(Close(w).writer, values, packFloat).raised.None?
    ensures DataSize(w.numSamples, w.numChannels, w.format) >= U32Limit - 36
    ensures var w2 := AppendRaw(Close(w).writer, values, packFloat).writer;
      var frame := PackFrame(w.numChannels, w.format, values, packFloat).value;
      && w2.isOpen
      && w2.numSamples == w.numSamples + 1
      && |w2.file.bytes| == |w.file.bytes|
      && w2.file.bytes[..|frame|] == frame
      && w2.file.bytes[|frame|..] == w.file.bytes[|frame|..]
      && (BlockAlign(w.numChannels, w.format) > 0 ==> !Valid(w2))
  {
    ValidHoldsHeader(w);
    var w1 := Close(w).writer;
    var frame := PackFrame(w.numChannels, w.format, values, packFloat).value;
    HeaderFitsIff(0, w.numChannels, w.sampleRate, w.format);
    assert |frame| <= |w.file.bytes|;
    WriteAtStart(w1.file, frame);
    DataSizeStep(w.numSamples, w.numChannels, w.format);
  }
}
