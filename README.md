# CWA decoder model

This project models the decoder at the heart of `cwa.js`. The decoder reads
OpenMovement AX3 `.cwa` accelerometer files. It covers four layers:

1. **Bit codecs**:
   - the packed RTC timestamp (`unpack_date_time` and the `DATETIME_FROM_YMDHMS` macro it inverts);
   - the packed 10-bit sample (`unpack_accel`) and its range-checked encoder `packInto32Bit`;
   - the sector scale word (`unpack_scale`).
2. **Header decode**: `readHeader` once its first 512-byte block has been read.
3. **Sector decode**: `readBuffer` once its block has been read. This covers the done short-circuit, the "AX" tag check, the metadata fields, the frequency and the `timeN` timestamps, and the 120-step payload loop.
4. **The driver `read_cwa`**: the header check, the read before the loop, the array or callback set-up, and the `while` loop that reads sectors. The loop runs until the stream ends or `max_buffers` is reached.

Modules, one per file:

| file | module | contents |
|---|---|---|
| `common.dfy` | `Common` | results and errors, and the JavaScript integer conversions (`ToInt32`, `>>>`, `1 << n`) on unbounded integers |
| `common.dfy` | `DataView` | little-endian signed reads of a 512-byte block |
| `datetime.dfy` | `DateTimeCodec` | the packed RTC timestamp |
| `accel.dfy` | `SampleCodec` | `unpack_accel`, `packInto32Bit` and `unpack_scale` |
| `header.dfy` | `HeaderDecoder` | `readHeader` |
| `sector.dfy` | `SectorDecoder` | `readBuffer`, with its payload loop as a method |
| `driver.dfy` | `StreamDriver` | `read_cwa` as methods with a loop, each proved equal to a specification function, plus closed forms of the loop's result |

How the model represents the program:

- **Bytes and blocks.** A block is a sequence of 512 integers in 0..255. `getInt8`, `getInt16(i, true)` and `getInt32(i, true)` return signed values, as in JavaScript. The signedness quirks that follow from this are modelled as written:
  - a scale word from 0x8000 up reaches `unpack_scale` as a negative number;
  - a header rate byte from 0x80 up reads as negative and gives 1 Hz;
  - `numAxes` is `getInt8(25) >>> 4`.
- **Integers.** JavaScript bitwise operators are written out on integers: `>>` with a mask, `>>>`, `1 << n` with its count taken mod 32, and the signed 32-bit result of `|`.
- **Fractional values.** Frequencies, time steps and scaled accelerations are Dafny `real`. `new Date(t).getTime()` keeps the integral part of `t`, rounded toward zero.
- **The byte source.** It is a sequence of 512-byte blocks. A read past its end is the done read. The header read is a separate parameter.
- **`lastRTC`.** The conversion of the RTC fields to milliseconds (`toDate().getTime()`) is an abstract function parameter `toMillis`.
- **The callback.** It is a pure function from a state and its argument to the next state and the array it returns. Its argument is a sector's samples, `undefined` (the `data` of a done read) or `false`.
- **The array.** The array-mode result is a sequence of slots, `None` standing for an empty slot of `new Array(n)`. `splice` follows JavaScript: a negative start counts from the end, and both arguments are clamped.

Behaviour of the code worth knowing:

- **Packing other than 0 yields no samples.** Only packing 0 with an axis count other than 3 throws. Any other packing gives a sector with no samples (`SectorDecoder.SectorOutcome`).
- **A packing-0 sector always yields 120 samples.** The comment at `cwa.js:91` describes `sampleCount` as the number of samples, but the loop at `cwa.js:147` decodes all 120 payload words whatever it says (`SectorDecoder.UnpackPayload`).
- **In array mode `sampleCount` sizes and positions the splices.** The first sector's `sampleCount` sizes `new Array(max_buffers * sampleCount)` (`cwa.js:284`). Each sector's `sampleCount` is its splice's deleteCount (`cwa.js:285`, `cwa.js:300`) and moves `results_offset`. A sector that holds more samples than it announces grows the array; one that holds fewer shrinks it (`StreamDriver.DeliverAnyCount`, `StreamDriver.ArrayLength`).
- **The time step is not rounded.** Timestamps use the exact step `1000 / freq`, and the resulting Date truncates each time. At 3200 Hz neighbouring samples can therefore share a millisecond (`SectorDecoder.SameMillisecondAt3200Hz`).
- **The accel divisor is 2^AAA for scale words with the top bit set.** The comment at `cwa.js:228` gives `2^(8+AAA)`, which the code yields only below 0x8000: from 0x8000 up, `8 + (num >>> 13)` is a shift count whose value mod 32 is AAA (`SampleCodec.ScaleOfWord`).
- **The callback gets only the samples.** There is no sector counter. The flush `callback(false)` happens only when the done read comes within the budget. When the very first read is done, the callback gets `undefined` (`StreamDriver.CallbackTrace`).

## Model

| member | source | states |
|---|---|---|
| Common.Uint32 | cwa.js:228 | the 32-bit pattern `>>>` works on lies in [0, 2^32) and is congruent to the value mod 2^32 |
| Common.ToInt32 | cwa.js:203 | the result of a bitwise operator is a signed 32-bit integer congruent to its operand mod 2^32 |
| Common.ShiftOne | cwa.js:129 | `1 << n` is never 0, and is 2^(n mod 32) unless the count mod 32 is 31 |
| Common.Trunc | cwa.js:149 | `getTime()` of a Date built from a fractional millisecond count keeps the integer part, rounded toward zero |
| Common.TruncMonotone | cwa.js:149 | that rounding never reverses the order of two times |
| Common.SpliceInRange | cwa.js:300 | within the array, `splice(start, count, ...items)` keeps the prefix, puts the items in place of `count` elements and keeps the rest |
| Common.SpliceFromEnd | cwa.js:300 | a negative splice start counts back from the end of the array |
| DataView.Uint16At | cwa.js:121 | two little-endian bytes give a value in [0, 2^16) |
| DataView.Int8At | cwa.js:56 | `getInt8` gives a value in [-128, 127] congruent to the byte mod 256 |
| DataView.Int16At | cwa.js:48 | `getInt16(i, true)` is the signed reading of the little-endian 16-bit word |
| DataView.Int32At | cwa.js:51 | `getInt32(i, true)` is the signed reading of the little-endian 32-bit word |
| DataView.Int16TagBytes | cwa.js:117 | a signed 16-bit read equals a positive tag exactly when the two bytes spell it, low byte first |
| DateTimeCodec.UnpackDateTime | cwa.js:177-188 | year is in 2000..2063, month 0..15, day 0..31, hours 0..31, minutes and seconds 0..63; no calendar validation |
| DateTimeCodec.PackDateTime | cwa.js:169 | the macro's value is an unsigned 32-bit word |
| DateTimeCodec.UnpackPackDateTime | cwa.js:169-184 | unpacking inverts the macro for in-range fields, year offset by 2000, whether the word is read signed or unsigned |
| DateTimeCodec.PackUnpackDateTime | cwa.js:169-184 | packing the unpacked fields gives back the word's 32-bit pattern |
| SampleCodec.RawFields | cwa.js:214-222 | the three sign-extended fields lie in [-512, 511] and the exponent in 0..3 |
| SampleCodec.UnpackAccelRange | cwa.js:214-223 | every component of `unpack_accel` lies in [-4096, 4088] |
| SampleCodec.PackInto32BitChecks | cwa.js:190-195 | packing succeeds exactly when a, b, c are in [-512, 511] and d in 0..3, and a failure names the first argument out of range |
| SampleCodec.SignExtendInverts | cwa.js:198-200 | masking a value in [-512, 511] to 10 bits and sign-extending it gives the value back |
| SampleCodec.RawFieldsOfPack | cwa.js:190-222 | the fields read back from a packed word are c, b, a and d |
| SampleCodec.UnpackPackAccel | cwa.js:190-224 | `unpack_accel(packInto32Bit(a, b, c, d))` is (c·2^d, b·2^d, a·2^d) |
| SampleCodec.PackRawFields | cwa.js:190-224 | every signed 32-bit word is the packing of its own unpacked fields |
| SampleCodec.UnpackScale | cwa.js:226-241 | the accel divisor is never zero |
| SampleCodec.ScaleOfWord | cwa.js:226-241 | for each 16-bit word read by `getInt16`: light is the low 10 bits; gyro is 0 or 8000/GGG; accel is 2^(8+AAA) below 0x8000 and 2^AAA from 0x8000 up |
| SampleCodec.ScaleOfLowWord | cwa.js:228-233 | for words below 0x8000, accel is 2^(8+AAA), so AAA = 0 gives 256 |
| SampleCodec.ScaleOfHighWord | cwa.js:228 | for words from 0x8000 up, the logical shift of the negative value makes accel 2^AAA |
| HeaderDecoder.HeaderTagCheck | cwa.js:48 | `isHeader` holds exactly when the block starts with the bytes 'M', 'D' |
| HeaderDecoder.HeaderFrequency | cwa.js:56-57 | `freq` is positive; it is 1 exactly when the rate byte is 0 or at least 0x80; otherwise it is 3200 / 2^(15 - (code & 0xF)) |
| HeaderDecoder.FreqOfCode | cwa.js:57 | for a signed code, the frequency is positive, is 1 exactly when the code is at most 0, and otherwise follows the rate formula |
| HeaderDecoder.RateFacts | cwa.js:57 | each of the sixteen rates is 3200 / 2^(15 - n), positive and never exactly 1 Hz |
| HeaderDecoder.Pow2Not3200 | cwa.js:57 | 3200 is no power of two, so a positive code never yields 1 Hz |
| SectorDecoder.SectorFields | cwa.js:121-131 | the sector's frequency is positive and its accel divisor non-zero, so `timeN` and the scaling never divide by zero |
| SectorDecoder.ReadBuffer | cwa.js:99-161 | the method returns the decode of the read: done short-circuit, tag check, fields, payload loop and format error |
| SectorDecoder.UnpackPayload | cwa.js:143-155 | the loop over offsets 30..506 produces exactly the 120 samples, sample i decoded from the word at 30 + 4i |
| SectorDecoder.SectorOutcome | cwa.js:113-158 | a done read decodes nothing; a tag other than "AX" fails; packing 0 with a format byte other than 0x30 fails; 0x30 gives 120 samples; any other packing gives none and no error |
| SectorDecoder.FormatByte | cwa.js:125-126 | `getInt8(25) & 0xF` is the low nibble and `getInt8(25) >>> 4` is 3 exactly when the high nibble is 3 |
| SectorDecoder.DeviceFractionalRange | cwa.js:121 | `deviceFractional` is the low 15 bits of the field, in [0, 32767] |
| SectorDecoder.SectorFrequency | cwa.js:129-131 | `sampleRate` is 2^(15 - nibble), so the `<= 0` branch is dead and `freq` follows the header's rate formula |
| SectorDecoder.SampleValues | cwa.js:147-154 | each sample times the accel divisor is the unpacked integer in [-4096, 4088], and it carries the sector's light value |
| SectorDecoder.RescalesSample | cwa.js:150-152 | dividing by the divisor is undone by multiplying by it |
| SectorDecoder.TimestampAnchor | cwa.js:137-149 | the sample at `timestampOffset` is stamped exactly `lastRTC` |
| SectorDecoder.ExactTimeGap | cwa.js:137-138 | the exact times of two samples are `time_step` times their index distance apart, and `time_step` is positive |
| SectorDecoder.TimesNonDecreasing | cwa.js:137-149 | timestamps never decrease along the sector |
| SectorDecoder.TimesIncrease | cwa.js:137-149 | at 1000 Hz or less, with non-negative times, timestamps strictly increase |
| SectorDecoder.SameMillisecondAt3200Hz | cwa.js:137-149 | at 3200 Hz, anchored at sample 0, samples 0 and 1 both carry `lastRTC` |
| StreamDriver.Prepare | cwa.js:277-287 | the array of `max_buffers * sampleCount` slots with the first sector spliced in, or the first callback's result pushed as one element; `new Array` refuses an invalid length |
| StreamDriver.ReadSectors | cwa.js:274-308 | the first read, the preparation and the loop compute the specification of the sector reads |
| StreamDriver.ReadLoop | cwa.js:290-308 | the `while` loop, entered with the last read, the buffer number and the result so far, finishes the specified run |
| StreamDriver.Turn | cwa.js:291-307 | one turn either fails with the read's error, ends at a done read, or leaves the rest of the run to the next buffer |
| StreamDriver.TakeSector | cwa.js:293-302 | a sector read splices its samples at `results_offset` and advances it by sampleCount, or spreads the callback's values |
| StreamDriver.TakeEnd | cwa.js:303-306 | a done read in the loop calls `callback(false)` and spreads its values; an array is left as it is |
| StreamDriver.ReadCwa | cwa.js:258-320 | the header read and check followed by the sector reads compute `read_cwa`'s result |
| StreamDriver.DecodedSector | cwa.js:113 | a block the decoder accepts is a data sector, never the done marker |
| StreamDriver.ContinueUnfold | cwa.js:290-308 | when the blocks decode, the loop delivers each sector up to the budget or the end of the blocks, and flushes only if the blocks ran out first |
| StreamDriver.ContinueFirstError | cwa.js:290-294 | the loop fails with the error of the first block within the budget that does not decode |
| StreamDriver.ContinueErrors | cwa.js:290-308 | the loop fails only with a sector decoding error |
| StreamDriver.ReadSectorsOutcome | cwa.js:274-320 | the read succeeds exactly when every block within the budget decodes and the array length is valid; `buffer_read` is then max(1, min(blocks, max_buffers)); errors are sector or array errors |
| StreamDriver.ReadSectorsErrors | cwa.js:274-308 | the sector reads fail only with a tag, format or array-length error |
| StreamDriver.ReadSectorsSucceeds | cwa.js:274-320 | when every block decodes, the read succeeds exactly when the array length is valid, with `buffer_read` as above |
| StreamDriver.ReadSectorsFirstError | cwa.js:274-308 | a failing read reports the error of the first block that does not decode, unless the array was refused before it |
| StreamDriver.ReadSectorsStart | cwa.js:274-290 | after a first sector, the loop starts from what the preparation made of it |
| StreamDriver.CallbackArgs | cwa.js:279-306 | the callback is called at least once |
| StreamDriver.FeedAppend | cwa.js:295-306 | feeding the callback two runs of arguments is feeding it the first, then the second from the state reached |
| StreamDriver.FeedOne | cwa.js:296 | feeding one argument is one callback call |
| StreamDriver.SinglesAppend | cwa.js:297 | spreading two arrays in turn is spreading their concatenation |
| StreamDriver.DeliverAllCalls | cwa.js:295-298 | in callback mode the loop's result is the callback fed each sector's samples in order, its values spread |
| StreamDriver.DeliverAndClose | cwa.js:295-306 | the deliveries and the optional flush are the callback fed the samples and then `false` |
| StreamDriver.CallbackTrace | cwa.js:279-306 | with a callback, the result is the first call's values nested, then every later call's spread; the calls receive one sector each in order, then `false` only if the blocks ran out within the budget |
| StreamDriver.ReadCwaOutcome | cwa.js:258-262 | an empty stream fails on the header read; a first block not starting with 'M', 'D' is refused; a result carries the decoded header and at least one buffer read |
| StreamDriver.PresentAppend | cwa.js:300 | the slots of two runs of samples side by side are the slots of their concatenation |
| StreamDriver.UniformSizes | cwa.js:300-301 | sectors of `c` samples each announcing `c` hold `|ss| * c` samples and advance the offset by as much |
| StreamDriver.DeliverInPlace | cwa.js:300-301 | one splice in range overwrites exactly the sector's slots and advances the offset past them |
| StreamDriver.DeliverAllSlots | cwa.js:290-302 | in array mode the loop lays the sectors' samples end to end from the offset, overwriting as many slots as they fill |
| StreamDriver.DeliverAllOffset | cwa.js:300-301 | in array mode `results_offset` advances by each sector's sampleCount |
| StreamDriver.ArrayOffset | cwa.js:284-308 | without a callback, `results_offset` ends at the sum of the sampleCount fields of the sectors read |
| StreamDriver.DeliverAnyCount | cwa.js:300-301 | one splice inside the array, whatever the sector's sampleCount: its sampleCount slots from the offset are replaced by all its samples, so the array changes length by the difference |
| StreamDriver.DeliverAllLength | cwa.js:290-302 | when the loop's splices stay inside the array, it ends longer by the samples held minus the sampleCounts announced |
| StreamDriver.BeginAsSplice | cwa.js:284-286 | the first array is the loop's splice of the first sector into `new Array(max_buffers * sampleCount)` at offset 0 |
| StreamDriver.ArraySplices | cwa.js:279-308 | without a callback and for any sectors read, the result is each sector spliced in turn into `new Array(max_buffers * c)` from offset 0 |
| StreamDriver.ArrayLength | cwa.js:279-308 | without a callback, when every splice stays inside the array, the result has `max_buffers * c` slots plus the samples held minus the sampleCounts announced |
| StreamDriver.FirstSplice | cwa.js:284-285 | the first splice into `new Array(n)` gives the samples and then the remaining empty slots |
| StreamDriver.ArrayBegin | cwa.js:284-286 | the array `read_cwa` builds from the first sector, with the offset at its sampleCount |
| StreamDriver.ArrayRun | cwa.js:284-308 | without a callback, the read is the first array followed by the loop's splices |
| StreamDriver.FillAfterFirst | cwa.js:290-302 | after the first sector, the splices fill the array from the front and leave the remaining slots empty |
| StreamDriver.FillUniform | cwa.js:284-301 | for sectors of `c` samples each, the array holds all samples followed by `(max_buffers - n) * c` empty slots |
| StreamDriver.ArrayFill | cwa.js:284-320 | without a callback and with sectors of equal size, the array holds all samples end to end, the untrimmed empty slots follow up to `max_buffers * c`, and the offset is the number of samples |

## Left out

- The fetch of the URL, `response.ok`, the `Content-Length` header and the reader are I/O. `max_buffers` is a parameter. The model leaves out its derivation from the content length and the error when that length is missing. It also takes `max_buffers` to be an integer, whereas `(content_length - 1024) / 512` can be fractional.
- The BYOB reader's buffer hand-off and partial reads are left out: every read is a whole 512-byte block or the done read. The second header block is read and ignored by the source and is not modelled. Nor is `reader.cancel()`.
- Logging is not modelled: `console.log`, `console.time` and `window.verbose` have no effect on the result.
- `toDate()` and JavaScript `Date` arithmetic depend on the local time zone and calendar rollover. They are represented by the function parameter `toMillis`; only the truncation of `getTime()` on a fractional value is modelled.
- Floating point is modelled with exact reals: division by the accel scale, `8000 / gyro`, `freq` and `time_step`. IEEE rounding is not modelled.
- `t0` and `t1` are computed by `readBuffer` and never used, so they are not modelled.
- The checksum field is never read by the source and is not modelled.
- A callback that throws or returns something other than an array is not modelled.
- JavaScript engine limits on array sizes are not modelled: `new Array` is refused only for lengths outside [0, 2^32), and the spread arguments of `splice` and `push` are unbounded.
- `index.js` is not part of this model: it holds the page wiring and an example callback.
- StreamDriver.ArrayFill: it gives the array's contents only when every sector read within the budget holds the same number of samples and announces it in sampleCount. For other inputs the model states less: `StreamDriver.ArraySplices` gives the array as the sequence of splices from `new Array(max_buffers * c)`, `StreamDriver.ArrayOffset` the final offset, `StreamDriver.ArrayLength` the final length when every splice stays inside the array, and `StreamDriver.DeliverAnyCount` each such splice in closed form. No lemma gives the contents for sectors that do not announce what they hold, nor the length when a splice is clamped at the end of the array.
