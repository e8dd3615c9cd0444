/** Shared vocabulary of the CWA decoder: results and errors, powers of two,
    the JavaScript integer conversions the decoder relies on, and the
    little-endian reads of a `DataView` over one 512-byte block.

    JavaScript's bitwise operators work on 32-bit two's complement integers.
    On an integral number `v` they are modelled with Dafny's Euclidean
    operators, whose remainder is never negative:
      - `v & (2^k - 1)`        is `v % 2^k`
      - `v >>> k`              is `Uint32(v) / 2^k`
      - `(v >> k) & (2^w - 1)` is `(Uint32(v) / 2^k) % 2^w` when `k + w <= 32`
        (arithmetic and logical shifts differ only in bits the mask drops). */
module Common {

  datatype Option<+T> = None | Some(value: T)

  /** The failures the decoder raises; each stands for a thrown `Error`. */
  datatype CwaError =
    | NotAHeader           // "Did not get a header...."
    | NotDataSector        // "Expected a data buffer ...."
    | UnsupportedAxes      // "Can only handle 3 Axes (AX3)..."
    | InvalidArrayLength   // the RangeError of `new Array(n)` for an invalid length
    | OutsideView          // the RangeError of a DataView read past the end of an empty read
    | DoesNotFit(argument: char)  // packInto32Bit: "<argument> does not fit into ... bits"

  datatype Result<+T> = Ok(value: T) | Err(error: CwaError)

  const TwoTo32: int := 0x1_0000_0000

  type Int32 = v: int | -0x8000_0000 <= v < 0x8000_0000
  type Int16 = v: int | -0x8000 <= v < 0x8000

  function Pow2(k: nat): (r: nat)
    ensures r >= 1
  {
    if k == 0 then 1 else 2 * Pow2(k - 1)
  }

  lemma MulAtLeast(m: int, k: int)
    requires m > 0 && k >= 1
    ensures m * k >= m
  {
  }

  lemma DivMulCancel(x: real, p: real)
    requires p != 0.0
    ensures (x / p) * p == x
  {
  }

  /** Quotient and remainder are unique: a value laid out as `a * m + b`
      with `0 <= b < m` divides back into `a` and `b`. */
  lemma DivModUnique(a: int, b: int, m: int)
    requires m > 0 && 0 <= b < m
    ensures (a * m + b) / m == a && (a * m + b) % m == b
  {
    var n := a * m + b;
    var q, r := n / m, n % m;
    assert m * q + r == n;
    assert m * (q - a) == b - r;
    if q > a {
      MulAtLeast(m, q - a);
    } else if q < a {
      MulAtLeast(m, a - q);
    }
  }

  /** Shifting right by `m` and then by `n` is one shift by `m * n`. */
  lemma DivDiv(u: int, m: int, n: int)
    requires u >= 0 && m > 0 && n > 0
    ensures u / (m * n) == (u / m) / n
  {
    var q1, r1 := u / m, u % m;
    var q2, r2 := q1 / n, q1 % n;
    assert u == m * q1 + r1;
    assert q1 == n * q2 + r2;
    assert u == (m * n) * q2 + (m * r2 + r1) by {
      assert m * q1 == m * (n * q2) + m * r2;
      assert m * (n * q2) == (m * n) * q2;
    }
    assert m * r2 <= m * (n - 1) by {
      if r2 < n - 1 { MulAtLeast(m, n - 1 - r2); assert m * (n - 1) - m * r2 == m * (n - 1 - r2); }
    }
    DivModUnique(q2, m * r2 + r1, m * n);
  }

  /** A bit field read back: in `n == (hi * w + f) * k + lo`, with `f` below
      `w` and `lo` below `k`, shifting right by `k` and masking by `w` gives `f`. */
  lemma FieldOf(n: int, hi: int, f: int, w: int, lo: int, k: int)
    requires w > 0 && k > 0 && 0 <= f < w && 0 <= lo < k
    requires n == (hi * w + f) * k + lo
    ensures (n / k) % w == f
  {
    DivModUnique(hi * w + f, lo, k);
    DivModUnique(hi, f, w);
  }

  function Min(a: int, b: int): int { if a <= b then a else b }

  function Max(a: int, b: int): int { if a >= b then a else b }

  /** ToUint32 of an integral number: the 32-bit pattern JavaScript's bitwise operators see. */
  function Uint32(v: int): (u: int)
    ensures 0 <= u < TwoTo32
    ensures (u - v) % TwoTo32 == 0
  {
    v % TwoTo32
  }

  /** ToInt32 of an integral number: the result of any JavaScript bitwise operator. */
  function ToInt32(v: int): (r: Int32)
    ensures (r - v) % TwoTo32 == 0
  {
    var u := Uint32(v);
    if u < 0x8000_0000 then u else u - TwoTo32
  }

  /** JavaScript `1 << count`: only the low five bits of the count are used,
      and a shift into bit 31 gives the most negative 32-bit integer. */
  function ShiftOne(count: int): (r: int)
    ensures r != 0
    ensures count % 32 < 31 ==> r == Pow2(count % 32)
  {
    var k := count % 32;
    if k == 31 then -0x8000_0000 else Pow2(k)
  }

  /** Integral part of a real, rounded toward zero: what `new Date(t).getTime()`
      keeps of a fractional millisecond count `t`. */
  function Trunc(t: real): (r: int)
    ensures t >= 0.0 ==> r as real <= t < r as real + 1.0
    ensures t <= 0.0 ==> r as real - 1.0 < t <= r as real
  {
    if t >= 0.0 then t.Floor else -((-t).Floor)
  }

  lemma TruncMonotone(s: real, t: real)
    requires s <= t
    ensures Trunc(s) <= Trunc(t)
  {
  }

  /** JavaScript `Array.prototype.splice(start, deleteCount, ...items)` as
      the array it leaves behind: a negative start counts from the end, and
      both start and deleteCount are clamped to the array. */
  function Splice<X>(arr: seq<X>, start: int, deleteCount: int, items: seq<X>): seq<X>
  {
    var len := |arr|;
    var from := if start < 0 then (if len + start < 0 then 0 else len + start)
                else Min(start, len);
    var count := Min(if deleteCount < 0 then 0 else deleteCount, len - from);
    arr[..from] + items + arr[from + count..]
  }

  /** Within the array, a splice keeps what precedes `start`, puts the items
      in place of `deleteCount` elements and keeps the rest after them. */
  lemma SpliceInRange<X>(arr: seq<X>, start: int, deleteCount: int, items: seq<X>)
    requires 0 <= start && 0 <= deleteCount && start + deleteCount <= |arr|
    ensures var r := Splice(arr, start, deleteCount, items);
            |r| == |arr| - deleteCount + |items| &&
            r[..start] == arr[..start] &&
            r[start..start + |items|] == items &&
            r[start + |items|..] == arr[start + deleteCount..]
  {
  }

  /** A negative start counts back from the end of the array. In `read_cwa`
      this is what a splice at a negative `results_offset` does, which a
      sector whose `getInt16(28)` sampleCount is negative leaves behind;
      the driver lemmas state the array only for non-negative offsets. */
  lemma SpliceFromEnd<X>(arr: seq<X>, start: int, deleteCount: int, items: seq<X>)
    requires start < 0 && -start <= |arr| && 0 <= deleteCount <= -start
    ensures Splice(arr, start, deleteCount, items) == Splice(arr, |arr| + start, deleteCount, items)
  {
  }
}

/** The little-endian reads `DataView.getInt8`, `getInt16(i, true)` and
    `getInt32(i, true)` over one 512-byte block of the file. */
module DataView {
  import opened Common

  type Byte = b: int | 0 <= b < 0x100

  /** One 512-byte transfer block: a data sector, or one half of the header. */
  type Block = s: seq<Byte> | |s| == 512 witness seq(512, _ => 0)

  function Uint16At(b: Block, i: nat): (r: int)
    requires i + 2 <= 512
    ensures 0 <= r < 0x1_0000
  {
    b[i] as int + 0x100 * b[i + 1] as int
  }

  function Uint32At(b: Block, i: nat): (r: int)
    requires i + 4 <= 512
    ensures 0 <= r < TwoTo32
  {
    b[i] as int + 0x100 * b[i + 1] as int + 0x1_0000 * b[i + 2] as int + 0x100_0000 * b[i + 3] as int
  }

  /** `getInt8(i)`: the byte read as a signed 8-bit integer. */
  function Int8At(b: Block, i: nat): (r: int)
    requires i < 512
    ensures -0x80 <= r < 0x80 && r % 0x100 == b[i]
  {
    if b[i] < 0x80 then b[i] as int else b[i] as int - 0x100
  }

  /** `getInt16(i, true)`: two bytes, little-endian, signed. */
  function Int16At(b: Block, i: nat): (r: Int16)
    requires i + 2 <= 512
    ensures r % 0x1_0000 == Uint16At(b, i)
  {
    var u := Uint16At(b, i);
    if u < 0x8000 then u else u - 0x1_0000
  }

  /** `getInt32(i, true)`: four bytes, little-endian, signed. */
  function Int32At(b: Block, i: nat): (r: Int32)
    requires i + 4 <= 512
    ensures Uint32(r) == Uint32At(b, i)
  {
    var u := Uint32At(b, i);
    if u < 0x8000_0000 then u else u - TwoTo32
  }

  /** A signed 16-bit read equals a positive tag exactly when its two bytes spell it. */
  lemma Int16TagBytes(b: Block, i: nat, tag: int)
    requires i + 2 <= 512 && 0 <= tag < 0x8000
    ensures Int16At(b, i) == tag <==> b[i] == tag % 0x100 && b[i + 1] == tag / 0x100
  {
  }
}
