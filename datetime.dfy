/** The compact RTC timestamp shared by the header and the data sectors:
    one 32-bit word holding six bit fields, from the most significant end
    year:6 (offset from 2000) | month:4 | day:5 | hours:5 | minutes:6 | seconds:6. */
module DateTimeCodec {
  import opened Common

  datatype DateTime = DateTime(year: int, month: int, day: int, hours: int, minutes: int, seconds: int)

  /** The bit-field ranges: every unpacked timestamp lies in them, and no
      calendar validation is done (month 0 or day 31 of February pass through). */
  predicate InFieldRanges(t: DateTime)
  {
    2000 <= t.year < 2064 && 0 <= t.month < 16 && 0 <= t.day < 32 &&
    0 <= t.hours < 32 && 0 <= t.minutes < 64 && 0 <= t.seconds < 64
  }

  /** `unpack_date_time`: splits the word (a signed value from `getInt32`,
      or any integral number) into its six fields; the year is offset by 2000. */
  function UnpackDateTime(dt: int): (t: DateTime)
    ensures InFieldRanges(t)
  {
    var u := Uint32(dt);
    DateTime((u / 0x400_0000) % 0x40 + 2000,
             (u / 0x40_0000) % 0x10,
             (u / 0x2_0000) % 0x20,
             (u / 0x1000) % 0x20,
             (u / 0x40) % 0x40,
             u % 0x40)
  }

  /** `DATETIME_FROM_YMDHMS`: each argument cast to unsigned, masked to its
      width and shifted into place; the fields do not overlap, so the C `|`
      of the shifted fields is their sum. The year argument is the offset
      from 2000. */
  function PackDateTime(year: int, month: int, day: int, hours: int, minutes: int, seconds: int): (w: int)
    ensures 0 <= w < TwoTo32
  {
    (year % 0x40) * 0x400_0000 + (month % 0x10) * 0x40_0000 + (day % 0x20) * 0x2_0000 +
    (hours % 0x20) * 0x1000 + (minutes % 0x40) * 0x40 + seconds % 0x40
  }

  /** Unpacking inverts the macro for in-range fields, whatever signed or
      unsigned reading of the packed word is handed to it. */
  lemma UnpackPackDateTime(year: int, month: int, day: int, hours: int, minutes: int, seconds: int)
    requires 0 <= year < 64 && 0 <= month < 16 && 0 <= day < 32
    requires 0 <= hours < 32 && 0 <= minutes < 64 && 0 <= seconds < 64
    ensures UnpackDateTime(PackDateTime(year, month, day, hours, minutes, seconds))
            == DateTime(year + 2000, month, day, hours, minutes, seconds)
    ensures UnpackDateTime(ToInt32(PackDateTime(year, month, day, hours, minutes, seconds)))
            == DateTime(year + 2000, month, day, hours, minutes, seconds)
  {
    var w := PackDateTime(year, month, day, hours, minutes, seconds);
    PackInRange(year, month, day, hours, minutes, seconds);
    assert Uint32(w) == w;
    assert Uint32(ToInt32(w)) == w;
    var hi1 := year * 0x10 + month;
    var hi2 := hi1 * 0x20 + day;
    var hi3 := hi2 * 0x20 + hours;
    var hi4 := hi3 * 0x40 + minutes;
    assert w == hi4 * 0x40 + seconds;
    FieldOf(w, 0, year, 0x40, w - year * 0x400_0000, 0x400_0000);
    FieldOf(w, year, month, 0x10, w - hi1 * 0x40_0000, 0x40_0000);
    FieldOf(w, hi1, day, 0x20, w - hi2 * 0x2_0000, 0x2_0000);
    FieldOf(w, hi2, hours, 0x20, w - hi3 * 0x1000, 0x1000);
    FieldOf(w, hi3, minutes, 0x40, seconds, 0x40);
    DivModUnique(hi4, seconds, 0x40);
  }

  /** Packing the unpacked fields gives back the word's 32-bit pattern: no
      bit of the word is lost by unpacking. */
  lemma PackUnpackDateTime(dt: int)
    ensures var t := UnpackDateTime(dt);
            PackDateTime(t.year - 2000, t.month, t.day, t.hours, t.minutes, t.seconds) == Uint32(dt)
  {
    var u := Uint32(dt);
    var t := UnpackDateTime(dt);
    WordFromFields(u);
    PackInRange(t.year - 2000, t.month, t.day, t.hours, t.minutes, t.seconds);
  }

  /** For fields within their widths the masks of the macro change nothing. */
  lemma PackInRange(year: int, month: int, day: int, hours: int, minutes: int, seconds: int)
    requires 0 <= year < 64 && 0 <= month < 16 && 0 <= day < 32
    requires 0 <= hours < 32 && 0 <= minutes < 64 && 0 <= seconds < 64
    ensures PackDateTime(year, month, day, hours, minutes, seconds)
            == year * 0x400_0000 + month * 0x40_0000 + day * 0x2_0000 +
               hours * 0x1000 + minutes * 0x40 + seconds
  {
    DivModUnique(0, year, 0x40);
    DivModUnique(0, month, 0x10);
    DivModUnique(0, day, 0x20);
    DivModUnique(0, hours, 0x20);
    DivModUnique(0, minutes, 0x40);
    DivModUnique(0, seconds, 0x40);
  }

  /** A 32-bit word is the sum of its six fields, each in its place. */
  lemma WordFromFields(u: int)
    requires 0 <= u < TwoTo32
    ensures u == ((u / 0x400_0000) % 0x40) * 0x400_0000 + ((u / 0x40_0000) % 0x10) * 0x40_0000 +
                 ((u / 0x2_0000) % 0x20) * 0x2_0000 + ((u / 0x1000) % 0x20) * 0x1000 +
                 ((u / 0x40) % 0x40) * 0x40 + u % 0x40
  {
    DivDiv(u, 0x40, 0x40);
    DivDiv(u, 0x1000, 0x20);
    DivDiv(u, 0x2_0000, 0x20);
    DivDiv(u, 0x40_0000, 0x10);
    assert u == (u / 0x40) * 0x40 + u % 0x40;
    assert u / 0x40 == (u / 0x1000) * 0x40 + (u / 0x40) % 0x40;
    assert u / 0x1000 == (u / 0x2_0000) * 0x20 + (u / 0x1000) % 0x20;
    assert u / 0x2_0000 == (u / 0x40_0000) * 0x20 + (u / 0x2_0000) % 0x20;
    assert u / 0x40_0000 == (u / 0x400_0000) * 0x10 + (u / 0x40_0000) % 0x10;
    assert u / 0x400_0000 == (u / 0x400_0000) % 0x40;
  }
}
