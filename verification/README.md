# WAV file writer — Dafny model

A model of `wav_file_writer.py`, a streaming encoder for uncompressed RIFF/WAVE
audio. The writer opens a file and writes a provisional 44-byte header that
declares zero samples. It then appends one fixed-size frame per call, with one
sample for every channel. On close it seeks back to offset 0 and rewrites the
header with the final sample count.

The model is functional. The output file is an in-memory byte sequence plus a
write position (`WavWriter.File`). The writer is an immutable datatype
(`WavWriter.Writer`), and every operation returns a `Step`: the writer
afterwards, and the exception raised, if any.

| file | module | models |
|---|---|---|
| `results.dfy` | `Results` | `Option` / `Result` wrappers |
| `bytes.dfy` | `Bytes` | octets and the `struct` codes `B`, `H`, `L`, `h`, `4s` (little-endian, standard size) |
| `rounding.dfy` | `Rounding` | Python's `round()` (ties to even) on exact reals |
| `sample_format.dfy` | `SampleFormats` | `WaveFormat`, `SampleFormat`, the format table, `_uint8_converter`, `_int16_converter` |
| `header.dfy` | `WaveHeader` | `_write_header`: the 44-byte header, and a parser for it |
| `writer.dfy` | `WavWriter` | `WavFileWriter`: construction, `append_raw_sample`, `append_sample`, `close` |
| `lifecycle.dfy` | `WriterLifecycle` | whole sessions: open, append many frames, close |

The sample value types are Python `int` and `float`, modelled as
`Value = Int(i) | Float(x: real)`. The `'f'`/`'d'` IEEE-754 encoder is a
parameter, `FloatPacker`. Its type says three things. An accepted value fills
exactly the requested 4 or 8 bytes. The 8-byte `'d'` code accepts every value.
The 4-byte `'f'` code accepts every value within ±(2^128 − 2^104), the largest
finite single-precision magnitude. `None` stands for the `OverflowError` that
`'f'` raises beyond that range.

Behaviour of the code worth knowing:
- Sample rate and channel count are not checked to be positive. Zero channels or a zero rate are accepted. Negative or oversized values fail only because the header's `struct.pack` rejects them (`HeaderFieldOutOfRange`).
- A wrong value count is a `struct.error`, modelled as `ItemCountMismatch`, and it is raised before anything is written.
- `'f'` does not accept every value: it raises for finite values beyond the single-precision range (`FloatOutOfRange`).
- Rounding is Python's round-half-to-even. So amplitude 0.0 becomes 128 in 8-bit files.
- `close` seeks to offset 0 before it packs the final header. When the data exceeds 2^32 − 37 bytes, the packing raises, the writer stays open, and its write position is left at 0.

## Model

| member | source | states |
|---|---|---|
| `Bytes.FromToLE` | wav_file_writer.py:89-90 | decoding the little-endian bytes of any value below 256^width gives the value back |
| `Bytes.ToFromLE` | wav_file_writer.py:89-90 | re-encoding decoded bytes gives the same bytes, so a field's bytes are determined by its value |
| `Bytes.PackUnsigned` | wav_file_writer.py:114 | the unsigned `'B'` sample code, like every unsigned `struct` field, packs exactly when 0 <= v < 256^width, into width bytes that decode to v |
| `Bytes.PackSigned` | wav_file_writer.py:114 | the `'h'` code packs exactly the values in [-2^15, 2^15), into bytes whose two's-complement reading is the value |
| `Rounding.Round` | wav_file_writer.py:38 | the result is within 1/2 of x, and even when x lies exactly halfway |
| `Rounding.RoundUnique` | wav_file_writer.py:38 | only one integer satisfies the round-half-to-even relation |
| `Rounding.RoundMonotone` | wav_file_writer.py:47 | a larger input never rounds to a smaller integer |
| `Rounding.RoundNegate` | wav_file_writer.py:47 | round(-x) = -round(x) |
| `SampleFormats.Info` | wav_file_writer.py:28-33 | each format's byte width equals the standard size of its `struct` code; PCM (tag 1) for UINT8/INT16, IEEE float (tag 3) for FLOAT32/FLOAT64 |
| `SampleFormats.FormatDeterminedByTagAndBits` | wav_file_writer.py:28-33 | no two formats share both format tag and bit depth, so a header identifies its format |
| `SampleFormats.Clip` | wav_file_writer.py:39 | `min(max(lo, v), hi)` is in [lo, hi], is v when v is in range, and saturates at the nearer bound otherwise |
| `SampleFormats.UInt8Convert` | wav_file_writer.py:36-39 | the result is always in [0, 255]; for x in [-1, 1) it is the rounded 128x + 127.5 unchanged; x <= -1 gives 0 and x >= 1 gives 255 |
| `SampleFormats.Int16Convert` | wav_file_writer.py:42-48 | the result is always in [-32767, 32767], so never -32768; for x in (-1, 1) it is the rounded 32767.5x unchanged; it saturates at ±32767 outside |
| `SampleFormats.UInt8ConvertMonotone` | wav_file_writer.py:36-39 | a louder amplitude never gives a smaller byte |
| `SampleFormats.Int16ConvertMonotone` | wav_file_writer.py:42-48 | a louder amplitude never gives a smaller 16-bit sample |
| `SampleFormats.Int16ConvertOdd` | wav_file_writer.py:42-48 | the 16-bit conversion is symmetric: converting -x gives minus the conversion of x |
| `SampleFormats.UInt8ConvertBoundaries` | wav_file_writer.py:36-39 | -1.0 → 0, +1.0 → 255, 0.0 → 128, and ±2.0 clip to 0 / 255 |
| `SampleFormats.Int16ConvertBoundaries` | wav_file_writer.py:42-48 | rounding alone maps -1.0 to -32768, but the converter gives -32767; +1.0 → 32767; ±2.0 clip to ±32767 |
| `WaveHeader.FieldsFor` | wav_file_writer.py:91-103 | the header's fields: RIFF size = 36 + data size, fmt size 16, tag 1 for PCM and 3 for float, block align = channels × bytes per sample, byte rate = rate × block align, bits = 8 × bytes per sample, data size = samples × block align |
| `WaveHeader.HeaderFitsIff` | wav_file_writer.py:89-104 | the header packs exactly when channels < 2^16, rate < 2^32, block align < 2^16, byte rate < 2^32 and data size < 2^32 − 36, all non-negative |
| `WaveHeader.Header` | wav_file_writer.py:78-104 | the header is present exactly when every field fits its width, and is then exactly 44 bytes |
| `WaveHeader.ParseHeader` | wav_file_writer.py:89-104 | a parsed header is 44 bytes with "RIFF" at 0..4, "WAVE" at 8..12, "fmt " at 12..16 and "data" at 36..40 |
| `WaveHeader.ParseSerialise` | wav_file_writer.py:89-104 | decoding the serialised `<4sL4s4sLHHLLHH4sL` layout recovers every field |
| `WaveHeader.HeaderRoundTrip` | wav_file_writer.py:89-104 | the fields read back are: RIFF size = 36 + data size, fmt size 16, format tag, channels, rate, byte rate = rate × block align, block align = channels × bytes per sample, bits = 8 × bytes per sample, data size = samples × block align |
| `WaveHeader.HeaderDeterminesParameters` | wav_file_writer.py:89-104 | equal headers have equal channel count, rate and format, and equal sample count when a frame is non-empty |
| `WaveHeader.ProvisionalDiffersOnlyInSizes` | wav_file_writer.py:60 | the provisional header (0 samples) and the final one agree on every byte outside 4..8 and 40..44; there the provisional header holds 36 and 0 |
| `WavWriter.Write` | wav_file_writer.py:106 | a file write overwrites at the position, extends the file past its end, and moves the position past the data |
| `WavWriter.Create` | wav_file_writer.py:53-61 | construction succeeds exactly when the header for 0 samples fits; the writer is then open with 0 samples, and the file is exactly that header with the position after it |
| `WavWriter.PackValue` | wav_file_writer.py:114 | `'B'`/`'h'` accept exactly the integers in range, rejecting floats as not integers; their bytes decode to the value; `'f'`/`'d'` defer to the IEEE encoder; `'d'` never fails, and `'f'` never fails within the single-precision range |
| `WavWriter.PackValues` | wav_file_writer.py:114 | a frame packs exactly when every value does, into bytes-per-sample bytes per value; otherwise the error is that of the first value that fails |
| `WavWriter.PackValuesBlocks` | wav_file_writer.py:114 | in a packed frame, bytes i×width..(i+1)×width are exactly the packing of value i, for every format |
| `WavWriter.PackFrame` | wav_file_writer.py:57 | a value count other than the channel count is rejected first; with the right count the frame is the values packed in order, exactly one block (channels × bytes per sample) |
| `WavWriter.AppendRaw` | wav_file_writer.py:108-117 | a closed writer raises AlreadyClosed; a bad count raises ItemCountMismatch and a range or type failure raises that value's error, both with the writer unchanged; success adds one block after the old bytes, increments the sample count, and keeps the file valid |
| `WavWriter.AppendKeepsValid` | wav_file_writer.py:114-117 | appending one block to a valid open writer keeps the file length at 44 + samples × block align |
| `WavWriter.AppendSample` | wav_file_writer.py:119-130 | a closed writer raises AlreadyClosed and a wrong count ItemCountMismatch, a failed call leaves the writer unchanged; with an integer format or `'d'` it succeeds exactly when the writer is open and the count matches, since conversion always lands in range, and so does `'f'` when every amplitude is within the single-precision range; float formats pass values through unchanged |
| `WavWriter.Convert` | wav_file_writer.py:122-130 | the converted frame has one value per channel: channel i is the 8-bit or 16-bit conversion of amplitude i for the integer formats, and the amplitudes themselves for the float formats |
| `WavWriter.UInt8FrameDecodes` | wav_file_writer.py:114 | byte i of an 8-bit frame is value i |
| `WavWriter.Int16FrameDecodes` | wav_file_writer.py:114 | bytes 2i..2i+2 of a 16-bit frame decode to value i |
| `WavWriter.AppendSampleStoresConverted` | wav_file_writer.py:119-127 | `append_sample` keeps the old bytes and stores after them each channel's converted amplitude, in channel order |
| `WavWriter.Close` | wav_file_writer.py:69-76 | a closed writer raises AlreadyClosed; on a valid open writer close succeeds exactly when data size < 2^32 − 36; on success bytes 0..44 become the final header, the data bytes and the length are unchanged, and the writer is closed; on failure the writer stays open, its bytes unchanged, with position 0 |
| `WavWriter.FinalHeaderFits` | wav_file_writer.py:74 | once a writer has opened, only the size fields can stop the final header from packing |
| `WavWriter.ClosedWriterRaises` | wav_file_writer.py:71-72 | after a successful close, a second close and any append raise AlreadyClosed and change nothing |
| `WavWriter.AppendAfterFailedClose` | wav_file_writer.py:73-74 | after a failed close, the next successful append overwrites the start of the header, the length stays the same, and the file no longer matches its sample count |
| `WriterLifecycle.EncodeFrames` | wav_file_writer.py:114 | a run of frames encodes exactly when every frame packs, into one block per frame |
| `WriterLifecycle.AppendAllRaw` | wav_file_writer.py:108-117 | after a run of appends with no error, the sample count has grown by the number of frames |
| `WriterLifecycle.AppendAllSamples` | test_wav_file_writer.py:36-43 | a loop of `append_sample` calls keeps the stream parameters and, when no call raises, grows the sample count by the number of frames |
| `WriterLifecycle.AppendAllRawContents` | wav_file_writer.py:108-117 | on an open writer the run succeeds exactly when every frame packs; the file is then the old file followed by the packed frames, and stays valid |
| `WriterLifecycle.AppendAllSamplesPcm` | wav_file_writer.py:119-127 | with an integer format, appending frames of the right width to a valid open writer never raises and adds one sample per frame; the writer stays valid, so the file is the header plus one block per sample |
| `WriterLifecycle.EndToEnd` | wav_file_writer.py:53-117 | open, append, close gives the final header followed by the packed frames; the length is 44 + samples × block align, and the header reads back the true sizes |
| `WriterLifecycle.ClosedFileDescribesItself` | wav_file_writer.py:69-76 | in a closed file, the RIFF size is the length − 8 and the data size is the length − 44; channels, rate and block align match the writer |
| `WriterLifecycle.ToneScenario` | wav_file_writer.py:53-130 | 240000 three-channel int16 frames at 48000 Hz give a 1440044-byte file, with RIFF size 1440036, data size 1440000, 3 channels and rate 48000 |

## Left out

- File-system effects (`open`, `seek`, `write`, and closing the OS file) are modelled as an in-memory byte sequence with a position. I/O errors from the operating system are not modelled.
- WavWriter.Create: the empty file that `open(filename, "wb")` leaves on disk when the header then fails to pack is not modelled. The model returns only the error.
- The context-manager hooks `__enter__`/`__exit__` (wav_file_writer.py:63-67) are not modelled separately. `__exit__` makes one call to `close`, which is `WavWriter.Close`.
- The first `struct.pack` in `_write_header` (wav_file_writer.py:82-87) is not modelled. Its result is overwritten before use. Its fields are a subset of the second pack's fields, so it cannot raise when the second would not.
- SampleFormats.UInt8Convert: the products `128.0 * x + 127.5` and `32767.5 * x` are computed exactly on reals. The double-precision rounding of those products before `round()` is not modelled.
- SampleFormats.Int16Convert: the same simplification applies; infinities and NaN, which make `round()` raise, have no counterpart among the reals.
- WavWriter.PackValue: IEEE-754 bit patterns for `'f'` and `'d'` are abstract (`FloatPacker`). Only their width, the fact that `'d'` accepts every value, and the fact that `'f'` accepts every value within ±(2^128 − 2^104) and may raise an overflow error beyond it are modelled. Values just above that bound that round down to the largest single-precision value are accepted by Python's `'f'` code, but the model does not promise it.
- WavWriter.AppendSample: the amplitude products are exact reals, so a finite amplitude whose double-precision product overflows to infinity (for example 1e304 in 16-bit, or above about 1.4e306 in 8-bit) makes `round()` raise `OverflowError` at wav_file_writer.py:38 and :47, while the model converts it and succeeds.
- Python `int`s so large that converting them to `float` overflows are not modelled. `bool` and other non-number arguments are not modelled either.
- The demo driver `test_wav_file_writer.py` (trigonometric tone generation and real files) is not modelled. Its shape is covered by `WriterLifecycle.ToneScenario` with arbitrary amplitudes.
