/** Decoding of the first 512 bytes of the 1024-byte file header
    (`cwa_header_t`); the second half is read and ignored. */
module HeaderDecoder {
  import opened Common
  import opened DataView
  import opened DateTimeCodec

  /** "MD", little-endian. */
  const HeaderTag: int := 0x444D

  datatype Header = Header(
    isHeader: bool,
    deviceId: Int16,
    timeZone: Int16,
    loggingStartTime: Int32,
    loggingEndTime: Int32,
    stime: DateTime,
    etime: DateTime,
    freq: real)

  /** The header's sampling frequency in Hz from the rate byte read as a
      signed 8-bit integer: 1 for a code that reads as zero or negative,
      otherwise 3200 / 2^(15 - low nibble). */
  function HeaderFreq(code: int): real
  {
    if code <= 0 then 1.0 else RateHz(code % 0x10)
  }

  /** `3200 / (1 << (15 - n))` for the low nibble n of a rate code. */
  function RateHz(n: int): real
  {
    3200.0 / ShiftOne(15 - n) as real
  }

  /** The decode step of `readHeader`, once the block has been read. */
  function ReadHeader(b: Block): Header
  {
    Header(
      isHeader := Int16At(b, 0) == HeaderTag,
      deviceId := Int16At(b, 5),
      timeZone := Int16At(b, 42),
      loggingStartTime := Int32At(b, 13),
      loggingEndTime := Int32At(b, 17),
      stime := UnpackDateTime(Int32At(b, 13)),
      etime := UnpackDateTime(Int32At(b, 17)),
      freq := HeaderFreq(Int8At(b, 36)))
  }

  /** The block is a header exactly when it starts with the bytes 'M', 'D'. */
  lemma HeaderTagCheck(b: Block)
    ensures ReadHeader(b).isHeader <==> b[0] == 0x4D && b[1] == 0x44
  {
    Int16TagBytes(b, 0, HeaderTag);
  }

  lemma Pow2Monotone(i: nat, j: nat)
    requires i <= j
    ensures Pow2(i) <= Pow2(j)
    decreases j - i
  {
    if i < j { Pow2Monotone(i + 1, j); }
  }

  /** 3200 divided by a positive number is positive, and is 1 only for 3200. */
  lemma Quotient3200(p: real)
    requires p >= 1.0
    ensures 3200.0 / p > 0.0
    ensures 3200.0 / p == 1.0 ==> p == 3200.0
  {
    DivMulCancel(3200.0, p);
  }

  /** 3200 is not a power of two, so no rate code gives exactly 1 Hz. */
  lemma Pow2Not3200(k: nat)
    ensures Pow2(k) != 3200
  {
    if k <= 11 {
      Pow2Monotone(k, 11);
      assert Pow2(11) == 2048;
    } else {
      Pow2Monotone(12, k);
      assert Pow2(12) == 4096;
    }
  }

  /** The frequency is always positive; it is 1 Hz exactly when the rate
      byte is 0 or at least 0x80 (negative as `getInt8` reads it), and
      otherwise 3200 / 2^(15 - (code & 0xF)). */
  lemma HeaderFrequency(b: Block)
    ensures ReadHeader(b).freq > 0.0
    ensures ReadHeader(b).freq == 1.0 <==> b[36] == 0 || b[36] >= 0x80
    ensures 0 < b[36] < 0x80 ==> ReadHeader(b).freq == 3200.0 / Pow2(15 - b[36] % 0x10) as real
  {
    var code := Int8At(b, 36);
    assert ReadHeader(b).freq == HeaderFreq(code);
    assert code <= 0 <==> b[36] == 0 || b[36] >= 0x80;
    FreqOfCode(code);
    if 0 < b[36] < 0x80 {
      assert code == b[36] as int;
      assert ReadHeader(b).freq == 3200.0 / Pow2(15 - code % 0x10) as real;
    }
  }

  lemma FreqOfCode(code: int)
    ensures HeaderFreq(code) > 0.0
    ensures HeaderFreq(code) == 1.0 <==> code <= 0
    ensures code > 0 ==> HeaderFreq(code) == 3200.0 / Pow2(15 - code % 0x10) as real
  {
    if code > 0 {
      var n := code % 0x10;
      RateFacts(n);
      assert HeaderFreq(code) == RateHz(n);
      assert HeaderFreq(code) == 3200.0 / Pow2(15 - n) as real;
    }
  }

  /** Each of the sixteen rates is 3200 / 2^(15 - n) Hz: positive and
      never exactly 1 Hz. */
  lemma RateFacts(n: int)
    requires 0 <= n < 0x10
    ensures RateHz(n) > 0.0 && RateHz(n) != 1.0
    ensures RateHz(n) == 3200.0 / Pow2(15 - n) as real
  {
    var k := 15 - n;
    var p := Pow2(k);
    assert ShiftOne(k) == p by { DivModUnique(0, k, 32); }
    Quotient3200(p as real);
    Pow2Not3200(k);
  }
}
