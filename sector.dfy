/** Decoding of one 512-byte data sector (`OM_READER_DATA_PACKET`): the
    tag check, the metadata fields, and the 120 packed samples of the
    3-axis, 10-bit format with their reconstructed timestamps. */
module SectorDecoder {
  import opened Common
  import opened DataView
  import opened DateTimeCodec
  import opened SampleCodec
  import HeaderDecoder

  /** "AX", little-endian. */
  const DataTag: int := 0x5841
  /** The packed samples occupy bytes 30..509, four bytes each. */
  const PayloadStart: int := 30
  const PayloadEnd: int := 510
  const SamplesPerSector: int := 120

  /** One decoded sample: acceleration in g, time in milliseconds, and the
      light value of its sector. */
  datatype Sample = Sample(x: real, y: real, z: real, time: int, light: int)

  /** A decoded data sector, with the fields `readBuffer` sets on its result. */
  datatype Sector = Sector(
    deviceFractional: int,
    rtc: DateTime,
    lastRTC: int,
    scale: Scale,
    timestampOffset: Int16,
    numAxes: int,
    packing: int,
    sampleCount: Int16,
    sampleRate: int,
    freq: real,
    data: seq<Sample>)

  /** What one call of `readBuffer` returns: the done marker or a sector. */
  datatype SectorRead = Done | Data(sector: Sector)

  /** What the byte source hands over for one read. */
  datatype ReadResult = EndOfStream | Filled(block: Block)

  /** The metadata of a data sector, every field but the samples. `lastRTC`
      is the calendar time of the RTC fields in milliseconds, as the
      caller's `toMillis` computes it. */
  function SectorFields(b: Block, toMillis: DateTime -> int): (s: Sector)
    ensures s.freq > 0.0 && s.scale.accel != 0 && s.data == []
  {
    var rtc := UnpackDateTime(Int32At(b, 14));
    var sampleRate := ShiftOne(15 - Int8At(b, 24) % 0x10);
    QuotientPositive(3200.0, sampleRate as real);
    Sector(
      deviceFractional := Int16At(b, 4) % 0x8000,
      rtc := rtc,
      lastRTC := toMillis(rtc),
      scale := UnpackScale(Int16At(b, 18)),
      timestampOffset := Int16At(b, 26),
      numAxes := Uint32(Int8At(b, 25)) / 0x10,
      packing := Int8At(b, 25) % 0x10,
      sampleCount := Int16At(b, 28),
      sampleRate := sampleRate,
      freq := if sampleRate <= 0 then 1.0 else 3200.0 / sampleRate as real,
      data := [])
  }

  lemma QuotientPositive(x: real, p: real)
    ensures x > 0.0 && p > 0.0 ==> x / p > 0.0
  {
    if x > 0.0 && p > 0.0 {
      DivMulCancel(x, p);
    }
  }

  lemma QuotientAtLeastOne(x: real, p: real)
    requires 0.0 < p <= x
    ensures x / p >= 1.0
  {
    DivMulCancel(x, p);
  }

  /** The sector fields the sample timestamps and scaling divide by are non-zero. */
  predicate Timed(s: Sector)
  {
    s.freq > 0.0 && s.scale.accel != 0
  }

  /** Milliseconds between consecutive samples: `time_step = 1000 / freq`. */
  function TimeStep(s: Sector): real
    requires s.freq > 0.0
  {
    1000.0 / s.freq
  }

  /** The millisecond value `timeN(n)` hands to `new Date`, before rounding. */
  function ExactTime(s: Sector, n: int): real
    requires s.freq > 0.0
  {
    s.lastRTC as real + TimeStep(s) * (n - s.timestampOffset) as real
  }

  /** `timeN(n).getTime()`: the Date keeps the integral part of the value. */
  function TimeN(s: Sector, n: int): int
    requires s.freq > 0.0
  {
    Trunc(ExactTime(s, n))
  }

  /** Sample i of the payload: the word at byte 30 + 4i, unpacked, divided
      by the accel scale and stamped with `timeN(i)` and the light value. */
  function SampleAt(b: Block, s: Sector, i: int): Sample
    requires 0 <= i < SamplesPerSector && Timed(s)
  {
    var a := UnpackAccel(Int32At(b, PayloadStart + 4 * i));
    var accel := s.scale.accel as real;
    Sample(a.x as real / accel, a.y as real / accel, a.z as real / accel, TimeN(s, i), s.scale.light)
  }

  /** All 120 samples of the payload, whatever the sector's sampleCount says. */
  function Samples(b: Block, s: Sector): seq<Sample>
    requires Timed(s)
  {
    seq(SamplesPerSector, i requires 0 <= i < SamplesPerSector => SampleAt(b, s, i))
  }

  /** The specification of `readBuffer` after the read. */
  function DecodeSector(r: ReadResult, toMillis: DateTime -> int): Result<SectorRead>
  {
    match r
    case EndOfStream => Ok(Done)
    case Filled(b) =>
      if Int16At(b, 0) != DataTag then Err(NotDataSector)
      else
        var s := SectorFields(b, toMillis);
        if s.packing == 0 then
          if s.numAxes == 3 then Ok(Data(s.(data := Samples(b, s)))) else Err(UnsupportedAxes)
        else Ok(Data(s))
  }

  /** `readBuffer` once the block has been read: the done short-circuit, the
      tag check, the fields, and the payload loop. */
  method ReadBuffer(r: ReadResult, toMillis: DateTime -> int) returns (result: Result<SectorRead>)
    ensures result == DecodeSector(r, toMillis)
  {
    if r.EndOfStream? {
      return Ok(Done);
    }
    var b := r.block;
    if Int16At(b, 0) != DataTag {
      return Err(NotDataSector);
    }
    var s := SectorFields(b, toMillis);
    var data: seq<Sample> := [];
    if s.packing == 0 {
      if s.numAxes == 3 {
        data := UnpackPayload(b, s);
      } else {
        return Err(UnsupportedAxes);
      }
    }
    return Ok(Data(s.(data := data)));
  }

  /** The loop of `readBuffer` over the payload, 4 bytes at a time from
      offset 30 to 510: every slot is decoded, whatever sampleCount says. */
  method UnpackPayload(b: Block, s: Sector) returns (data: seq<Sample>)
    requires Timed(s)
    ensures data == Samples(b, s)
  {
    data := [];
    var offset := PayloadStart;
    while offset < PayloadEnd
      invariant offset == PayloadStart + 4 * |data| && |data| <= SamplesPerSector
      invariant data == Samples(b, s)[..|data|]
    {
      var n := |data|;
      var unpacked := UnpackAccel(Int32At(b, offset));
      var accel := s.scale.accel as real;
      var time := TimeN(s, (offset - PayloadStart) / 4);
      var sample := Sample(unpacked.x as real / accel, unpacked.y as real / accel,
                           unpacked.z as real / accel, time, s.scale.light);
      assert sample == SampleAt(b, s, n) == Samples(b, s)[n];
      assert Samples(b, s)[..n + 1] == Samples(b, s)[..n] + [Samples(b, s)[n]];
      data := data + [sample];
      offset := offset + 4;
    }
  }

  /** The decoder's outcome for every block, in terms of its bytes: a tag
      other than "AX" fails; packing 0 with a format byte other than 0x30
      fails; packing 0 with 0x30 gives 120 samples; any other packing gives
      no samples and no error. A done read decodes nothing. */
  lemma SectorOutcome(b: Block, toMillis: DateTime -> int)
    ensures DecodeSector(EndOfStream, toMillis) == Ok(Done)
    ensures DecodeSector(Filled(b), toMillis) == Err(NotDataSector) <==> !(b[0] == 0x41 && b[1] == 0x58)
    ensures DecodeSector(Filled(b), toMillis) == Err(UnsupportedAxes) <==>
            b[0] == 0x41 && b[1] == 0x58 && b[25] % 0x10 == 0 && b[25] != 0x30
    ensures DecodeSector(Filled(b), toMillis).Ok? && DecodeSector(Filled(b), toMillis).value.Data? &&
            |DecodeSector(Filled(b), toMillis).value.sector.data| == SamplesPerSector <==>
            b[0] == 0x41 && b[1] == 0x58 && b[25] == 0x30
    ensures DecodeSector(Filled(b), toMillis).Ok? && DecodeSector(Filled(b), toMillis).value.Data? &&
            DecodeSector(Filled(b), toMillis).value.sector.data == [] <==>
            b[0] == 0x41 && b[1] == 0x58 && b[25] % 0x10 != 0
  {
    Int16TagBytes(b, 0, DataTag);
    FormatByte(b);
  }

  /** `getInt8(25) & 0xF` is the low nibble of the byte, and `getInt8(25) >>> 4`
      is 3 exactly when the byte's high nibble is 3 (a byte from 0x80 up
      reads negative and shifts to a value above 2^27). */
  lemma FormatByte(b: Block)
    ensures Int8At(b, 25) % 0x10 == b[25] % 0x10
    ensures Uint32(Int8At(b, 25)) / 0x10 == 3 <==> b[25] / 0x10 == 3
  {
    var v := Int8At(b, 25);
    if b[25] < 0x80 {
      assert v == b[25] as int;
      DivModUnique(0, v, TwoTo32);
    } else {
      assert v == b[25] as int - 0x100;
      DivModUnique(-1, v + TwoTo32, TwoTo32);
      DivModUnique(-16, b[25] % 0x10, 0x10);
      assert Uint32(v) == v + TwoTo32;
    }
  }

  /** deviceFractional keeps the low 15 bits of the field: always in [0, 32767]. */
  lemma DeviceFractionalRange(b: Block, toMillis: DateTime -> int)
    ensures var f := SectorFields(b, toMillis).deviceFractional;
            0 <= f <= 0x7FFF && f == Uint16At(b, 4) % 0x8000
  {
    var v := Int16At(b, 4);
    if v < 0 {
      DivModUnique(1, v + 0x8000, 0x8000);
      DivModUnique(-1, v + 0x8000, 0x8000);
    }
  }

  /** The sector's rate is `1 << (15 - nibble)`, never zero or negative, so
      the `sampleRate <= 0` branch is never taken and the frequency is the
      same formula the header uses for a positive code. */
  lemma SectorFrequency(b: Block, toMillis: DateTime -> int)
    ensures var s := SectorFields(b, toMillis);
            s.sampleRate == Pow2(15 - b[24] % 0x10) &&
            s.freq == HeaderDecoder.RateHz(b[24] % 0x10)
  {
    var n := Int8At(b, 24) % 0x10;
    assert n == b[24] % 0x10 by {
      if b[24] >= 0x80 { DivModUnique(b[24] as int / 0x10 - 16, b[24] as int % 0x10, 0x10); }
    }
    DivModUnique(0, 15 - n, 32);
  }

  /** Each decoded component times the accel scale is the unpacked integer,
      which lies in [-4096, 4088]; every sample carries the sector's light. */
  lemma SampleValues(b: Block, s: Sector, i: int)
    requires Timed(s) && 0 <= i < SamplesPerSector
    ensures var a := UnpackAccel(Int32At(b, PayloadStart + 4 * i));
            Rescales(Samples(b, s)[i], a, s.scale.accel) &&
            InSampleRange(a.x) && InSampleRange(a.y) && InSampleRange(a.z) &&
            Samples(b, s)[i].light == s.scale.light
  {
    var w := Int32At(b, PayloadStart + 4 * i);
    var d := Samples(b, s)[i];
    assert d == SampleAt(b, s, i);
    UnpackAccelRange(w);
    RescalesSample(UnpackAccel(w), s.scale.accel, d.time, d.light);
  }

  /** Each component of the sample times the scale is the unpacked integer. */
  predicate Rescales(d: Sample, a: Accel, accel: int)
  {
    d.x * accel as real == a.x as real && d.y * accel as real == a.y as real && d.z * accel as real == a.z as real
  }

  lemma RescalesSample(a: Accel, accel: int, time: int, light: int)
    requires accel != 0
    ensures Rescales(Sample(a.x as real / accel as real, a.y as real / accel as real,
                            a.z as real / accel as real, time, light), a, accel)
  {
    DivMulCancel(a.x as real, accel as real);
    DivMulCancel(a.y as real, accel as real);
    DivMulCancel(a.z as real, accel as real);
  }

  /** The sample at index timestampOffset is stamped exactly with the RTC time. */
  lemma TimestampAnchor(b: Block, s: Sector)
    requires Timed(s) && 0 <= s.timestampOffset < SamplesPerSector
    ensures Samples(b, s)[s.timestampOffset].time == s.lastRTC
  {
    assert ExactTime(s, s.timestampOffset) == s.lastRTC as real;
  }

  lemma ExactTimeGap(s: Sector, i: int, j: int)
    requires s.freq > 0.0 && i <= j
    ensures TimeStep(s) > 0.0
    ensures ExactTime(s, j) - ExactTime(s, i) == TimeStep(s) * (j - i) as real
    ensures ExactTime(s, i) <= ExactTime(s, j)
  {
    var d := TimeStep(s);
    assert d * (j - s.timestampOffset) as real - d * (i - s.timestampOffset) as real == d * (j - i) as real;
  }

  /** Timestamps never decrease along the sector. */
  lemma TimesNonDecreasing(b: Block, s: Sector, i: int, j: int)
    requires Timed(s) && 0 <= i <= j < SamplesPerSector
    ensures Samples(b, s)[i].time <= Samples(b, s)[j].time
  {
    ExactTimeGap(s, i, j);
    TruncMonotone(ExactTime(s, i), ExactTime(s, j));
  }

  /** When samples are at least a millisecond apart (freq at most 1000 Hz)
      and the sector's times are not negative, timestamps strictly increase. */
  lemma TimesIncrease(b: Block, s: Sector, i: int, j: int)
    requires Timed(s) && s.freq <= 1000.0 && ExactTime(s, 0) >= 0.0
    requires 0 <= i < j < SamplesPerSector
    ensures Samples(b, s)[i].time < Samples(b, s)[j].time
  {
    ExactTimeGap(s, 0, i);
    ExactTimeGap(s, i, j);
    var d := TimeStep(s);
    QuotientAtLeastOne(1000.0, s.freq);
    assert d * (j - i) as real >= d;
  }

  /** At 3200 Hz samples are 5/16 ms apart, so neighbours can share a
      timestamp: with the RTC anchored at sample 0, samples 0 and 1 both
      carry lastRTC. */
  lemma SameMillisecondAt3200Hz(b: Block, s: Sector)
    requires Timed(s) && s.freq == 3200.0 && s.timestampOffset == 0 && s.lastRTC >= 0
    ensures Samples(b, s)[0].time == Samples(b, s)[1].time == s.lastRTC
  {
    assert TimeStep(s) == 0.3125;
    assert ExactTime(s, 1) == s.lastRTC as real + 0.3125;
    assert ExactTime(s, 0) == s.lastRTC as real;
  }
}
