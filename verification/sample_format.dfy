/**
  The four sample formats a WAV file can be written in, the table that gives
  each one its WAVE format tag, byte width and `struct` code, and the two
  converters that turn a nominal amplitude in [-1, +1] into an integer sample.
 */
module SampleFormats {
  import opened Rounding

  /** The audio-format tags of the WAVE "fmt " chunk that the writer emits. */
  datatype WaveFormat = Pcm | IeeeFloat {
    /** The number stored in bytes 20..22 of the header. */
    function Tag(): (t: nat)
      ensures t == 1 || t == 3
    {
      match this
      case Pcm => 1
      case IeeeFloat => 3
    }
  }

  datatype SampleFormat = UInt8 | Int16 | Float32 | Float64

  /** The `struct` code that serialises one sample: 'B', 'h', 'f' or 'd'. */
  datatype PackCode = UnsignedByte | SignedShort | Single | Double

  /** The standard size, in bytes, of each `struct` code. */
  function PackWidth(c: PackCode): nat {
    match c
    case UnsignedByte => 1
    case SignedShort => 2
    case Single => 4
    case Double => 8
  }

  datatype SampleFormatInfo = SampleFormatInfo(audioFormat: WaveFormat, bytesPerSample: nat, packCode: PackCode)

  /** The format table: what each sample format means on disk. */
  function Info(f: SampleFormat): (r: SampleFormatInfo)
    ensures r.bytesPerSample == PackWidth(r.packCode)
    ensures r.audioFormat == Pcm <==> f == UInt8 || f == Int16
    ensures r.audioFormat.Tag() == (if f == UInt8 || f == Int16 then 1 else 3)
  {
    match f
    case UInt8 => SampleFormatInfo(Pcm, 1, UnsignedByte)
    case Int16 => SampleFormatInfo(Pcm, 2, SignedShort)
    case Float32 => SampleFormatInfo(IeeeFloat, 4, Single)
    case Float64 => SampleFormatInfo(IeeeFloat, 8, Double)
  }

  function BytesPerSample(f: SampleFormat): (n: nat)
    ensures n == 1 || n == 2 || n == 4 || n == 8
  {
    Info(f).bytesPerSample
  }

  /** Bits per sample, as stored in bytes 34..36 of the header. */
  function BitsPerSample(f: SampleFormat): nat {
    8 * BytesPerSample(f)
  }

  /** The formats are told apart by their format tag together with their bit depth. */
  lemma FormatDeterminedByTagAndBits(f: SampleFormat, g: SampleFormat)
    requires Info(f).audioFormat.Tag() == Info(g).audioFormat.Tag()
    requires BitsPerSample(f) == BitsPerSample(g)
    ensures f == g
  {
  }

  /** `v` limited to the closed range [lo, hi], i.e. `min(max(lo, v), hi)`. */
  function Clip(v: int, lo: int, hi: int): (r: int)
    requires lo <= hi
    ensures lo <= r <= hi
    ensures lo <= v <= hi ==> r == v
    ensures v < lo ==> r == lo
    ensures v > hi ==> r == hi
  {
    if v < lo then lo else if v > hi then hi else v
  }

  /** Clipping keeps the order of its inputs. */
  lemma ClipMonotone(v: int, w: int, lo: int, hi: int)
    requires lo <= hi && v <= w
    ensures Clip(v, lo, hi) <= Clip(w, lo, hi)
  {
  }

  /** Maps an amplitude in [-1, +1] onto an unsigned byte, 127.5 being silence. */
  function UInt8Convert(x: real): (r: int)
    ensures 0 <= r <= 255
    ensures -1.0 <= x < 1.0 ==> IsRoundHalfEven(128.0 * x + 127.5, r)
    ensures x <= -1.0 ==> r == 0
    ensures x >= 1.0 ==> r == 255
  {
    RoundedUInt8Range(x);
    Clip(Round(128.0 * x + 127.5), 0, 255)
  }

  /** Where the rounded 8-bit value falls, before clipping. */
  lemma RoundedUInt8Range(x: real)
    ensures x <= -1.0 ==> Round(128.0 * x + 127.5) <= 0
    ensures x >= 1.0 ==> Round(128.0 * x + 127.5) >= 255
    ensures -1.0 <= x < 1.0 ==> 0 <= Round(128.0 * x + 127.5) <= 255
  {
    if x <= -1.0 {
      RoundMonotone(128.0 * x + 127.5, -0.5);
      RoundUnique(-0.5, 0);
    } else if x >= 1.0 {
      RoundMonotone(255.5, 128.0 * x + 127.5);
      RoundUnique(255.5, 256);
    } else {
      RoundMonotone(-0.5, 128.0 * x + 127.5);
      RoundUnique(-0.5, 0);
    }
  }

  /** Maps an amplitude in [-1, +1] onto a signed 16-bit value, never -32768. */
  function Int16Convert(x: real): (r: int)
    ensures -32767 <= r <= 32767
    ensures -1.0 < x < 1.0 ==> IsRoundHalfEven(32767.5 * x, r)
    ensures x <= -1.0 ==> r == -32767
    ensures x >= 1.0 ==> r == 32767
  {
    RoundedInt16Range(x);
    Clip(Round(32767.5 * x), -32767, 32767)
  }

  /** Where the rounded 16-bit value falls, before clipping. */
  lemma RoundedInt16Range(x: real)
    ensures x <= -1.0 ==> Round(32767.5 * x) <= -32767
    ensures x >= 1.0 ==> Round(32767.5 * x) >= 32767
    ensures -1.0 < x < 1.0 ==> -32767 <= Round(32767.5 * x) <= 32767
  {
    if x <= -1.0 {
      RoundMonotone(32767.5 * x, -32767.5);
      RoundUnique(-32767.5, -32768);
    } else if x >= 1.0 {
      RoundMonotone(32767.5, 32767.5 * x);
      RoundUnique(32767.5, 32768);
    } else {
      RoundMonotone(-32767.5, 32767.5 * x);
      RoundMonotone(32767.5 * x, 32767.5);
      RoundUnique(-32767.5, -32768);
      RoundUnique(32767.5, 32768);
    }
  }

  /** A louder input never gives a smaller byte. */
  lemma UInt8ConvertMonotone(x: real, y: real)
    requires x <= y
    ensures UInt8Convert(x) <= UInt8Convert(y)
  {
    RoundMonotone(128.0 * x + 127.5, 128.0 * y + 127.5);
    ClipMonotone(Round(128.0 * x + 127.5), Round(128.0 * y + 127.5), 0, 255);
  }

  /** A louder input never gives a smaller 16-bit value. */
  lemma Int16ConvertMonotone(x: real, y: real)
    requires x <= y
    ensures Int16Convert(x) <= Int16Convert(y)
  {
    RoundMonotone(32767.5 * x, 32767.5 * y);
    ClipMonotone(Round(32767.5 * x), Round(32767.5 * y), -32767, 32767);
  }

  /** The 16-bit range is symmetric: negating the amplitude negates the sample. */
  lemma Int16ConvertOdd(x: real)
    ensures Int16Convert(-x) == -Int16Convert(x)
  {
    RoundNegate(32767.5 * x);
    assert 32767.5 * -x == -(32767.5 * x);
  }

  /** Full scale, silence and out-of-range amplitudes for the 8-bit converter. */
  lemma UInt8ConvertBoundaries()
    ensures UInt8Convert(-1.0) == 0
    ensures UInt8Convert(1.0) == 255
    ensures UInt8Convert(0.0) == 128
    ensures UInt8Convert(-2.0) == 0 && UInt8Convert(2.0) == 255
  {
    RoundUnique(127.5, 128);
  }

  /** Full scale for the 16-bit converter is +-32767, though rounding alone would give -32768. */
  lemma Int16ConvertBoundaries()
    ensures Round(32767.5 * -1.0) == -32768
    ensures Int16Convert(-1.0) == -32767
    ensures Int16Convert(1.0) == 32767
    ensures Int16Convert(0.0) == 0
    ensures Int16Convert(-2.0) == -32767 && Int16Convert(2.0) == 32767
  {
    RoundUnique(-32767.5, -32768);
    RoundOfInteger(0);
  }
}
