/** The sample codec: one packed 32-bit accelerometer sample, laid out from
    the most significant end as e:2 | z:10 | y:10 | x:10, and the sector's
    combined scale word AAAGGGLLLLLLLLLL. */
module SampleCodec {
  import opened Common

  /** A sample as `unpack_accel` returns it, before division by the scale. */
  datatype Accel = Accel(x: int, y: int, z: int)

  /** The four fields of a packed sample: three sign-extended 10-bit values
      and the 2-bit binary exponent. */
  datatype RawSample = RawSample(x: int, y: int, z: int, e: nat)

  predicate InSampleRange(v: int) { -0x1000 <= v <= 0xFF8 }

  /** A 10-bit field read as two's complement. */
  function SignExtend10(v: int): int
  {
    if v > 511 then v - 1024 else v
  }

  /** The field extraction and sign extension of `unpack_accel`. */
  function RawFields(num: int): (f: RawSample)
    ensures -512 <= f.x < 512 && -512 <= f.y < 512 && -512 <= f.z < 512 && f.e < 4
  {
    var u := Uint32(num);
    RawSample(SignExtend10(u % 0x400),
              SignExtend10((u / 0x400) % 0x400),
              SignExtend10((u / 0x10_0000) % 0x400),
              (u / 0x4000_0000) % 4)
  }

  /** `unpack_accel`: each sign-extended field shifted left by the exponent
      (`x << e`, which cannot overflow here, is `x * 2^e`). */
  function UnpackAccel(num: int): Accel
  {
    var f := RawFields(num);
    Accel(f.x * Pow2(f.e), f.y * Pow2(f.e), f.z * Pow2(f.e))
  }

  /** Every unpacked component lies in [-4096, 4088] = [-512 * 8, 511 * 8]. */
  lemma UnpackAccelRange(num: int)
    ensures var a := UnpackAccel(num);
            InSampleRange(a.x) && InSampleRange(a.y) && InSampleRange(a.z)
  {
    var f := RawFields(num);
    assert Pow2(0) == 1 && Pow2(1) == 2 && Pow2(2) == 4 && Pow2(3) == 8;
    assert f.e == 0 || f.e == 1 || f.e == 2 || f.e == 3;
  }

  /** `packInto32Bit(a, b, c, d)`: range-checks the arguments in order,
      then places d in bits 30-31, a in 20-29, b in 10-19 and c in 0-9;
      the fields do not overlap, so the `|` of the shifted fields is their
      sum, and the JavaScript result is that sum read as a signed 32-bit value. */
  function PackInto32Bit(a: int, b: int, c: int, d: int): Result<int>
  {
    if a < -512 || a > 511 then Err(DoesNotFit('a'))
    else if b < -512 || b > 511 then Err(DoesNotFit('b'))
    else if c < -512 || c > 511 then Err(DoesNotFit('c'))
    else if d < 0 || d > 3 then Err(DoesNotFit('d'))
    else Ok(ToInt32(d * 0x4000_0000 + (a % 0x400) * 0x10_0000 + (b % 0x400) * 0x400 + c % 0x400))
  }

  /** Packing succeeds exactly when every argument fits its width, and a
      failure names the first argument that does not. */
  lemma PackInto32BitChecks(a: int, b: int, c: int, d: int)
    ensures PackInto32Bit(a, b, c, d).Ok? <==>
            -512 <= a <= 511 && -512 <= b <= 511 && -512 <= c <= 511 && 0 <= d <= 3
    ensures PackInto32Bit(a, b, c, d).Err? ==>
            PackInto32Bit(a, b, c, d).error ==
              DoesNotFit(if !(-512 <= a <= 511) then 'a' else if !(-512 <= b <= 511) then 'b'
                         else if !(-512 <= c <= 511) then 'c' else 'd')
  {
  }

  /** A value in [-512, 511] and its 10-bit two's complement pattern. */
  lemma SignExtendInverts(v: int)
    requires -512 <= v <= 511
    ensures 0 <= v % 0x400 < 0x400 && SignExtend10(v % 0x400) == v
  {
    if v < 0 { DivModUnique(-1, v + 0x400, 0x400); } else { DivModUnique(0, v, 0x400); }
  }

  lemma PatternOfSignExtend(p: int)
    requires 0 <= p < 0x400
    ensures SignExtend10(p) % 0x400 == p
  {
    if p > 511 { DivModUnique(-1, p, 0x400); } else { DivModUnique(0, p, 0x400); }
  }

  /** The fields of a packed word are the arguments it was packed from. */
  lemma RawFieldsOfPack(a: int, b: int, c: int, d: int)
    requires -512 <= a <= 511 && -512 <= b <= 511 && -512 <= c <= 511 && 0 <= d <= 3
    ensures PackInto32Bit(a, b, c, d).Ok?
    ensures RawFields(PackInto32Bit(a, b, c, d).value) == RawSample(c, b, a, d)
  {
    SignExtendInverts(a);
    SignExtendInverts(b);
    SignExtendInverts(c);
    var pa, pb, pc := a % 0x400, b % 0x400, c % 0x400;
    var w := d * 0x4000_0000 + pa * 0x10_0000 + pb * 0x400 + pc;
    Uint32OfToInt32(w);
    SampleFieldsOf(w, d, pa, pb, pc);
  }

  /** A 32-bit pattern survives the trip through a signed reading. */
  lemma Uint32OfToInt32(w: int)
    requires 0 <= w < TwoTo32
    ensures Uint32(ToInt32(w)) == w
  {
    DivModUnique(0, w, TwoTo32);
    var r := ToInt32(w);
    if r != w {
      assert r == w - TwoTo32;
      DivModUnique(-1, w, TwoTo32);
    }
  }

  /** The shifts and masks of `unpack_accel` read back the four fields of a word. */
  lemma SampleFieldsOf(w: int, d: int, pa: int, pb: int, pc: int)
    requires 0 <= d < 4 && 0 <= pa < 0x400 && 0 <= pb < 0x400 && 0 <= pc < 0x400
    requires w == d * 0x4000_0000 + pa * 0x10_0000 + pb * 0x400 + pc
    ensures (w / 0x4000_0000) % 4 == d && (w / 0x10_0000) % 0x400 == pa
    ensures (w / 0x400) % 0x400 == pb && w % 0x400 == pc
  {
    FieldOf(w, 0, d, 4, w - d * 0x4000_0000, 0x4000_0000);
    FieldOf(w, d, pa, 0x400, w - (d * 0x400 + pa) * 0x10_0000, 0x10_0000);
    FieldOf(w, d * 0x400 + pa, pb, 0x400, pc, 0x400);
    DivModUnique((d * 0x400 + pa) * 0x400 + pb, pc, 0x400);
  }

  /** Round trip: unpacking a packed sample gives back x = c, y = b, z = a,
      each shifted left by the exponent d. */
  lemma UnpackPackAccel(a: int, b: int, c: int, d: int)
    requires -512 <= a <= 511 && -512 <= b <= 511 && -512 <= c <= 511 && 0 <= d <= 3
    ensures PackInto32Bit(a, b, c, d).Ok?
    ensures UnpackAccel(PackInto32Bit(a, b, c, d).value) == Accel(c * Pow2(d), b * Pow2(d), a * Pow2(d))
  {
    RawFieldsOfPack(a, b, c, d);
  }

  /** The other direction: every 32-bit sample word is the packing of its
      own fields, so unpacking loses nothing but the exponent's effect. */
  lemma PackRawFields(num: Int32)
    ensures var f := RawFields(num);
            PackInto32Bit(f.z, f.y, f.x, f.e) == Ok(num)
  {
    var u := Uint32(num);
    var px, py, pz := u % 0x400, (u / 0x400) % 0x400, (u / 0x10_0000) % 0x400;
    PatternOfSignExtend(px);
    PatternOfSignExtend(py);
    PatternOfSignExtend(pz);
    SampleWordFromFields(u);
    Int32OfPattern(num);
  }

  /** A 32-bit word is the sum of its four sample fields, each in its place. */
  lemma SampleWordFromFields(u: int)
    requires 0 <= u < TwoTo32
    ensures u == ((u / 0x4000_0000) % 4) * 0x4000_0000 + ((u / 0x10_0000) % 0x400) * 0x10_0000 +
                 ((u / 0x400) % 0x400) * 0x400 + u % 0x400
  {
    DivDiv(u, 0x400, 0x400);
    DivDiv(u, 0x10_0000, 0x400);
    assert u == (u / 0x400) * 0x400 + u % 0x400;
    assert u / 0x400 == (u / 0x10_0000) * 0x400 + (u / 0x400) % 0x400;
    assert u / 0x10_0000 == (u / 0x4000_0000) * 0x400 + (u / 0x10_0000) % 0x400;
    assert u / 0x4000_0000 == (u / 0x4000_0000) % 4;
  }

  lemma Int32OfPattern(num: Int32)
    ensures ToInt32(Uint32(num)) == num
  {
    if num < 0 { DivModUnique(-1, num + TwoTo32, TwoTo32); } else { DivModUnique(0, num, TwoTo32); }
    DivModUnique(0, Uint32(num), TwoTo32);
  }

  /** The scale factors of a sector, as `unpack_scale` returns them. */
  datatype Scale = Scale(accel: int, gyro: real, light: int)

  /** `unpack_scale`: accel = `1 << (8 + (num >>> 13))`, gyro = 8000 / GGG
      (0 when GGG is 0), light = the low ten bits. */
  function UnpackScale(num: int): (s: Scale)
    ensures s.accel != 0
  {
    var u := Uint32(num);
    var gyro := (u / 0x400) % 8;
    Scale(ShiftOne(8 + u / 0x2000),
          if gyro == 0 then 0.0 else 8000.0 / gyro as real,
          u % 0x400)
  }

  /** The scale word's fields for each 16-bit word, handed over the way
      `getInt16` reads it (words from 0x8000 up arrive negative). Light and
      gyro follow the word; accel is 2^(8 + AAA) only while the top bit is
      clear: for AAA = 4..7 the logical shift of the negative number makes
      the shift count 2^19 + AAA, which JavaScript reduces mod 32, so accel
      is 2^AAA (16..128) instead. */
  lemma ScaleOfWord(w: int)
    requires 0 <= w < 0x1_0000
    ensures var s := UnpackScale(if w < 0x8000 then w else w - 0x1_0000);
            var aaa, ggg := w / 0x2000, (w / 0x400) % 8;
            s.light == w % 0x400 &&
            s.gyro == (if ggg == 0 then 0.0 else 8000.0 / ggg as real) &&
            s.accel == (if w < 0x8000 then Pow2(8 + aaa) else Pow2(aaa))
  {
    if w < 0x8000 {
      ScaleOfLowWord(w);
    } else {
      ScaleOfHighWord(w);
    }
  }

  lemma ScaleOfLowWord(w: int)
    requires 0 <= w < 0x8000
    ensures var s := UnpackScale(w);
            s.light == w % 0x400 &&
            s.gyro == (if (w / 0x400) % 8 == 0 then 0.0 else 8000.0 / ((w / 0x400) % 8) as real) &&
            s.accel == Pow2(8 + w / 0x2000)
  {
    assert Uint32(w) == w by { DivModUnique(0, w, TwoTo32); }
    DivModUnique(0, 8 + w / 0x2000, 32);
    assert ShiftOne(8 + w / 0x2000) == Pow2(8 + w / 0x2000);
  }

  /** A word with the top bit set reaches `unpack_scale` as w - 2^16, whose
      32-bit pattern is w + 0xFFFF0000. */
  lemma ScaleOfHighWord(w: int)
    requires 0x8000 <= w < 0x1_0000
    ensures var s := UnpackScale(w - 0x1_0000);
            s.light == w % 0x400 &&
            s.gyro == (if (w / 0x400) % 8 == 0 then 0.0 else 8000.0 / ((w / 0x400) % 8) as real) &&
            s.accel == Pow2(w / 0x2000)
  {
    var u := Uint32(w - 0x1_0000);
    assert u == w + 0xFFFF_0000 by { DivModUnique(-1, w + 0xFFFF_0000, TwoTo32); }
    var aaa, g := w / 0x2000, w / 0x400;
    DivModUnique(aaa + 0x7_FFF8, w % 0x2000, 0x2000);
    assert u / 0x2000 == aaa + 0x7_FFF8;
    DivModUnique(0x4000, aaa, 32);
    assert (8 + u / 0x2000) % 32 == aaa;
    DivModUnique(g + 0x3F_FFC0, w % 0x400, 0x400);
    assert u / 0x400 == g + 0x3F_FFC0 && u % 0x400 == w % 0x400;
    DivModUnique(g / 8 + 0x7_FFF8, g % 8, 8);
    assert (u / 0x400) % 8 == g % 8;
  }
}
