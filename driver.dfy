/** `read_cwa`: the header check, then the loop that reads data sectors
    until the stream ends or the buffer budget is spent, collecting the
    samples into one preallocated array or handing each sector to a
    callback.

    The byte source is the sequence of 512-byte blocks that follow the
    two header blocks; a read past its end is the stream's done read. */
module StreamDriver {
  import opened Common
  import opened DataView
  import opened DateTimeCodec
  import opened HeaderDecoder
  import opened SectorDecoder

  /** What the callback is handed: a sector's samples, `undefined` (the
      `data` of a done read) or `false` (the flush at the end of the stream). */
  datatype CallbackArg = Batch(samples: seq<Sample>) | Missing | Finished

  /** A callback together with the state its closure carries: it maps that
      state and its argument to the next state and the values it returns. */
  type Callback<!S, T> = (S, CallbackArg) -> (S, seq<T>)

  /** How the caller asked for the samples: no callback (one array of
      `max_buffers * sampleCount` slots), or a callback and its initial state. */
  datatype Sink<!S, T> = ArraySink | CallbackSink(callback: Callback<S, T>, initial: S)

  /** An element of the callback-mode result: the first callback's values
      are pushed as one array, later ones are spread. */
  datatype Item<T> = Nested(values: seq<T>) | Single(value: T)

  /** `return_value` with the loop's bookkeeping: the array with its
      `results_offset`, or the callback, its state and the values pushed. */
  datatype Collected<!S, T> =
    | Slots(slots: seq<Option<Sample>>, offset: int)
    | Calls(callback: Callback<S, T>, state: S, items: seq<Item<T>>)

  /** What the sector loop leaves behind: `data` and `buffer_read`. */
  datatype Run<!S, T> = Run(data: Collected<S, T>, bufferRead: int)

  /** The object `read_cwa` resolves to. */
  datatype CwaFile<!S, T> = CwaFile(header: Header, data: Collected<S, T>, bufferRead: int)

  /** The k-th data read: a block, or done once the blocks run out. */
  function ReadAt(src: seq<Block>, k: int): ReadResult
  {
    if 0 <= k < |src| then Filled(src[k]) else EndOfStream
  }

  /** The samples as array slots. */
  function Present(data: seq<Sample>): seq<Option<Sample>>
  {
    seq(|data|, i requires 0 <= i < |data| => Some(data[i]))
  }

  /** `new Array(n)`: n empty slots. */
  function Blank(n: nat): seq<Option<Sample>>
  {
    seq(n, _ => None)
  }

  /** Values spread into the result with `push(...x)`. */
  function Singles<T>(xs: seq<T>): seq<Item<T>>
  {
    if |xs| == 0 then [] else [Single(xs[0])] + Singles(xs[1..])
  }

  /** `results.data`: the samples of a sector, undefined for a done read. */
  function DataArg(r: SectorRead): CallbackArg
  {
    if r.Done? then Missing else Batch(r.sector.data)
  }

  /** The statements between the first read and the loop. In array mode the
      array has `max_buffers * sampleCount` empty slots, and `new Array`
      refuses a length that is negative, at least 2^32, or (after a done
      read, whose sampleCount is undefined) not a number. */
  function Begin<S, T>(first: SectorRead, max: int, sink: Sink<S, T>): Result<Collected<S, T>>
  {
    match sink
    case ArraySink =>
      if first.Done? then Err(InvalidArrayLength)
      else
        var count := first.sector.sampleCount;
        var length := max * count;
        if length < 0 || length >= TwoTo32 then Err(InvalidArrayLength)
        else Ok(Slots(Splice(Blank(length), 0, count, Present(first.sector.data)), count))
    case CallbackSink(callback, initial) =>
      var (state, x) := callback(initial, DataArg(first));
      Ok(Calls(callback, state, if |x| > 0 then [Nested(x)] else []))
  }

  /** One more sector inside the loop: spliced in at `results_offset`, or
      handed to the callback and its values spread. */
  function Deliver<S, T>(d: Collected<S, T>, s: Sector): Collected<S, T>
  {
    match d
    case Slots(slots, offset) =>
      Slots(Splice(slots, offset, s.sampleCount, Present(s.data)), offset + s.sampleCount)
    case Calls(callback, state, items) =>
      var (state', x) := callback(state, Batch(s.data));
      Calls(callback, state', items + Singles(x))
  }

  /** The done read inside the loop: the callback is called with `false`. */
  function Finish<S, T>(d: Collected<S, T>): Collected<S, T>
  {
    match d
    case Slots(_, _) => d
    case Calls(callback, state, items) =>
      var (state', x) := callback(state, Finished);
      Calls(callback, state', items + Singles(x))
  }

  /** What `readBuffer` gives for the k-th data read. */
  function Reads(src: seq<Block>, toMillis: DateTime -> int): int -> Result<SectorRead>
  {
    k => DecodeSector(ReadAt(src, k), toMillis)
  }

  /** `outcomes` gives what `readBuffer` gives for every data read. */
  ghost predicate DecodesAs(src: seq<Block>, toMillis: DateTime -> int, outcomes: int -> Result<SectorRead>)
  {
    forall k {:trigger DecodeSector(ReadAt(src, k), toMillis)} :: outcomes(k) == DecodeSector(ReadAt(src, k), toMillis)
  }

  /** The loop from buffer number n on, the last read having been a sector;
      `outcomes(k)` is the outcome of the k-th data read. */
  function Continue<S, T>(outcomes: int -> Result<SectorRead>, max: int, n: int, d: Collected<S, T>)
    : Result<Run<S, T>>
    decreases if n < max then max - n else 0
  {
    if n >= max then Ok(Run(d, n))
    else
      match outcomes(n)
      case Err(e) => Err(e)
      case Ok(Done) => Ok(Run(Finish(d), n))
      case Ok(Data(s)) => Continue(outcomes, max, n + 1, Deliver(d, s))
  }

  /** Everything `read_cwa` does after the header. */
  function ReadSectorsSpec<S, T>(src: seq<Block>, toMillis: DateTime -> int, max: int, sink: Sink<S, T>)
    : Result<Run<S, T>>
  {
    match DecodeSector(ReadAt(src, 0), toMillis)
    case Err(e) => Err(e)
    case Ok(first) =>
      match Begin(first, max, sink)
      case Err(e) => Err(e)
      case Ok(d) => if first.Done? then Ok(Run(d, 1)) else Continue(Reads(src, toMillis), max, 1, d)
  }

  /** `read_cwa`: an empty stream fails on the first header read, a block
      not tagged "MD" is refused, and the rest is the sector loop. */
  function ReadCwaSpec<S, T>(headerRead: ReadResult, src: seq<Block>, toMillis: DateTime -> int,
                             max: int, sink: Sink<S, T>): Result<CwaFile<S, T>>
  {
    match headerRead
    case EndOfStream => Err(OutsideView)
    case Filled(b) =>
      var header := ReadHeader(b);
      if !header.isHeader then Err(NotAHeader)
      else
        match ReadSectorsSpec(src, toMillis, max, sink)
        case Err(e) => Err(e)
        case Ok(run) => Ok(CwaFile(header, run.data, run.bufferRead))
  }

  // ---------------------------------------------------------------------
  // The statements of `read_cwa`, step by step. Prepare, TakeSector,
  // TakeEnd and ReadCwa carry out the same steps as Begin, Deliver, Finish
  // and ReadCwaSpec above, and each ensures says it gives the same result;
  // the properties of the read are proved about those functions below.

  /** The statements of `read_cwa` between the first sector read and the loop. */
  method Prepare<S, T>(first: SectorRead, max: int, sink: Sink<S, T>) returns (r: Result<Collected<S, T>>)
    ensures r == Begin(first, max, sink)
  {
    match sink {
      case ArraySink =>
        if first.Done? {
          return Err(InvalidArrayLength);
        }
        var count := first.sector.sampleCount;
        var length := max * count;
        if length < 0 || length >= TwoTo32 {
          return Err(InvalidArrayLength);
        }
        var slots := Blank(length);
        slots := Splice(slots, 0, count, Present(first.sector.data));
        return Ok(Slots(slots, count));
      case CallbackSink(callback, initial) =>
        var (state, x) := callback(initial, DataArg(first));
        var items: seq<Item<T>> := [];
        if |x| > 0 {
          items := items + [Nested(x)];
        }
        assert items == (if |x| > 0 then [Nested(x)] else []);
        assert (state, x) == callback(initial, DataArg(first));
        return Ok(Calls(callback, state, items));
    }
  }

  /** The sector reads of `read_cwa`: the first read, the preparation of
      the result, and the loop. */
  method ReadSectors<S, T>(src: seq<Block>, toMillis: DateTime -> int, max: int, sink: Sink<S, T>)
    returns (r: Result<Run<S, T>>)
    ensures r == ReadSectorsSpec(src, toMillis, max, sink)
  {
    var results := ReadBuffer(ReadAt(src, 0), toMillis);
    if results.Err? {
      return Err(results.error);
    }
    var begun := Prepare(results.value, max, sink);
    if begun.Err? {
      return Err(begun.error);
    }
    r := ReadLoop(src, toMillis, Reads(src, toMillis), max, results.value, 1, begun.value);
  }

  /** The `while (!results.done)` loop of `read_cwa`, entered with the last
      read, the buffer number and the result so far. */
  method ReadLoop<S, T>(src: seq<Block>, toMillis: DateTime -> int, ghost outcomes: int -> Result<SectorRead>,
                        max: int, last: SectorRead, bufferNumber: int, returnValue: Collected<S, T>)
    returns (r: Result<Run<S, T>>)
    requires DecodesAs(src, toMillis, outcomes)
    ensures r == if last.Data? then Continue(outcomes, max, bufferNumber, returnValue)
                 else Ok(Run(returnValue, bufferNumber))
  {
    ghost var goal := if last.Data? then Continue(outcomes, max, bufferNumber, returnValue)
                      else Ok(Run(returnValue, bufferNumber));
    var sector := last;
    var number := bufferNumber;
    var collected := returnValue;
    while number < max && sector.Data?
      invariant sector.Data? ==> goal == Continue(outcomes, max, number, collected)
      invariant !sector.Data? ==> goal == Ok(Run(collected, number))
      decreases if number < max then max - number else 0, sector.Data?
    {
      var read, next := Turn(src, toMillis, outcomes, max, number, collected);
      if read.Err? {
        return Err(read.error);
      }
      sector := read.value;
      if sector.Data? {
        number := number + 1;
      }
      collected := next;
    }
    return Ok(Run(collected, number));
  }

  /** One turn of the loop: read buffer number `number` and take in what it
      holds; the rest of the loop then goes on from the next buffer, or
      ends here after the done read. */
  method Turn<S, T>(src: seq<Block>, toMillis: DateTime -> int, ghost outcomes: int -> Result<SectorRead>,
                    max: int, number: int, collected: Collected<S, T>)
    returns (read: Result<SectorRead>, next: Collected<S, T>)
    requires number < max
    requires DecodesAs(src, toMillis, outcomes)
    ensures read.Err? ==> Continue(outcomes, max, number, collected) == Err(read.error)
    ensures read.Ok? && read.value.Done? ==> Continue(outcomes, max, number, collected) == Ok(Run(next, number))
    ensures read.Ok? && read.value.Data? ==>
            Continue(outcomes, max, number, collected) == Continue(outcomes, max, number + 1, next)
  {
    read := ReadBuffer(ReadAt(src, number), toMillis);
    next := collected;
    if read.Ok? {
      if read.value.Data? {
        next := TakeSector(collected, read.value.sector);
      } else {
        next := TakeEnd(collected);
      }
    }
  }

  /** The loop body after a sector read: splice its samples in at
      `results_offset` and advance it by sampleCount, or spread the
      callback's values. */
  method TakeSector<S, T>(collected: Collected<S, T>, s: Sector) returns (next: Collected<S, T>)
    ensures next == Deliver(collected, s)
  {
    match collected {
      case Slots(slots, offset) =>
        var spliced := Splice(slots, offset, s.sampleCount, Present(s.data));
        next := Slots(spliced, offset + s.sampleCount);
      case Calls(callback, state, items) =>
        var (state', x) := callback(state, Batch(s.data));
        next := Calls(callback, state', items + Singles(x));
    }
  }

  /** The loop body after the done read: `callback(false)`, its values spread. */
  method TakeEnd<S, T>(collected: Collected<S, T>) returns (next: Collected<S, T>)
    ensures next == Finish(collected)
  {
    next := collected;
    if collected.Calls? {
      var (state', x) := collected.callback(collected.state, Finished);
      next := collected.(state := state', items := collected.items + Singles(x));
    }
  }

  /** `read_cwa` after the fetch: the header read and check, then the sectors. */
  method ReadCwa<S, T>(headerRead: ReadResult, src: seq<Block>, toMillis: DateTime -> int,
                       max: int, sink: Sink<S, T>) returns (r: Result<CwaFile<S, T>>)
    ensures r == ReadCwaSpec(headerRead, src, toMillis, max, sink)
  {
    if headerRead.EndOfStream? {
      return Err(OutsideView);
    }
    var header := ReadHeader(headerRead.block);
    if !header.isHeader {
      return Err(NotAHeader);
    }
    var run := ReadSectors(src, toMillis, max, sink);
    if run.Err? {
      return Err(run.error);
    }
    return Ok(CwaFile(header, run.value.data, run.value.bufferRead));
  }

  // ---------------------------------------------------------------------
  // The loop in closed form

  /** A block the sector decoder accepts, with or without samples. */
  predicate Decodes(b: Block, toMillis: DateTime -> int)
  {
    DecodeSector(Filled(b), toMillis).Ok?
  }

  function SectorOf(b: Block, toMillis: DateTime -> int): Sector
    requires Decodes(b, toMillis)
  {
    DecodeSector(Filled(b), toMillis).value.sector
  }

  /** An accepted block is a data sector, never the done marker. */
  lemma DecodedSector(b: Block, toMillis: DateTime -> int)
    requires Decodes(b, toMillis)
    ensures DecodeSector(Filled(b), toMillis) == Ok(Data(SectorOf(b, toMillis)))
  {
  }

  predicate AllDecode(src: seq<Block>, toMillis: DateTime -> int, lo: int, hi: int)
    requires 0 <= lo && hi <= |src|
  {
    forall k :: lo <= k < hi ==> Decodes(src[k], toMillis)
  }

  /** The sectors of blocks lo..hi-1, in order. */
  function SectorsOf(src: seq<Block>, toMillis: DateTime -> int, lo: int, hi: int): seq<Sector>
    requires 0 <= lo <= hi <= |src| && AllDecode(src, toMillis, lo, hi)
    decreases hi - lo
  {
    if lo == hi then [] else [SectorOf(src[lo], toMillis)] + SectorsOf(src, toMillis, lo + 1, hi)
  }

  /** How many sector reads must succeed: one at least (the read before the
      loop), then one per buffer up to `max_buffers` while blocks remain. */
  function Budget(src: seq<Block>, max: int): int
  {
    Min(|src|, Max(1, max))
  }

  /** The loop body applied to each sector in turn. */
  function DeliverAll<S, T>(d: Collected<S, T>, ss: seq<Sector>): Collected<S, T>
    decreases |ss|
  {
    if |ss| == 0 then d else DeliverAll(Deliver(d, ss[0]), ss[1..])
  }

  function Closing<S, T>(d: Collected<S, T>, flush: bool): Collected<S, T>
  {
    if flush then Finish(d) else d
  }

  /** When the sectors from buffer number n on decode, the loop delivers
      each of them, stops at the budget or the end of the blocks, and calls
      the flush only when the blocks ran out before the budget. */
  lemma {:induction false} ContinueUnfold<S, T>(src: seq<Block>, toMillis: DateTime -> int, max: int, n: int,
                                                d: Collected<S, T>)
    requires 0 <= n <= |src|
    requires Min(|src|, max) <= n || AllDecode(src, toMillis, n, Min(|src|, max))
    ensures var m := Max(n, Min(|src|, max));
            Continue(Reads(src, toMillis), max, n, d) ==
            Ok(Run(Closing(DeliverAll(d, SectorsOf(src, toMillis, n, m)), n < max && |src| < max), m))
    decreases if n < max then max - n else 0
  {
    if n >= max {
    } else if n == |src| {
      assert SectorsOf(src, toMillis, n, n) == [];
    } else {
      var s := SectorOf(src[n], toMillis);
      var m := Min(|src|, max);
      assert ReadAt(src, n) == Filled(src[n]);
      DecodedSector(src[n], toMillis);
      assert Continue(Reads(src, toMillis), max, n, d) == Continue(Reads(src, toMillis), max, n + 1, Deliver(d, s));
      ContinueUnfold(src, toMillis, max, n + 1, Deliver(d, s));
      assert SectorsOf(src, toMillis, n, m)[1..] == SectorsOf(src, toMillis, n + 1, m);
    }
  }

  /** The loop fails exactly with the error of the first block within the
      budget that does not decode. */
  lemma {:induction false} ContinueFirstError<S, T>(src: seq<Block>, toMillis: DateTime -> int, max: int, n: int,
                                                    d: Collected<S, T>, k: int)
    requires 0 <= n <= k < Min(|src|, max)
    requires AllDecode(src, toMillis, n, k) && !Decodes(src[k], toMillis)
    ensures Continue(Reads(src, toMillis), max, n, d) == Err(DecodeSector(Filled(src[k]), toMillis).error)
    decreases k - n
  {
    assert ReadAt(src, n) == Filled(src[n]);
    if n < k {
      var s := SectorOf(src[n], toMillis);
      DecodedSector(src[n], toMillis);
      assert Continue(Reads(src, toMillis), max, n, d) == Continue(Reads(src, toMillis), max, n + 1, Deliver(d, s));
      ContinueFirstError(src, toMillis, max, n + 1, Deliver(d, s), k);
    }
  }

  /** The loop fails only with a sector decoding error. */
  lemma {:induction false} ContinueErrors<S, T>(src: seq<Block>, toMillis: DateTime -> int, max: int, n: int,
                                                d: Collected<S, T>)
    ensures Continue(Reads(src, toMillis), max, n, d).Err? ==>
            Continue(Reads(src, toMillis), max, n, d).error in {NotDataSector, UnsupportedAxes}
    decreases if n < max then max - n else 0
  {
    if n < max {
      var r := DecodeSector(ReadAt(src, n), toMillis);
      if r.Ok? && r.value.Data? {
        ContinueErrors(src, toMillis, max, n + 1, Deliver(d, r.value.sector));
      }
    }
  }

  // ---------------------------------------------------------------------
  // Properties of the whole read

  /** The read succeeds exactly when every block within the budget decodes
      and, without a callback, the first sector gives an array length
      `new Array` accepts; `buffer_read` is then the number of sector reads,
      and never less than one. It fails only with a sector or array error. */
  lemma ReadSectorsOutcome<S, T>(src: seq<Block>, toMillis: DateTime -> int, max: int, sink: Sink<S, T>)
    ensures ReadSectorsSpec(src, toMillis, max, sink).Ok? <==>
            AllDecode(src, toMillis, 0, Budget(src, max)) &&
            (sink.ArraySink? ==> 1 <= |src| && 0 <= max * SectorOf(src[0], toMillis).sampleCount < TwoTo32)
    ensures ReadSectorsSpec(src, toMillis, max, sink).Ok? ==>
            ReadSectorsSpec(src, toMillis, max, sink).value.bufferRead == Max(1, Budget(src, max))
    ensures ReadSectorsSpec(src, toMillis, max, sink).Err? ==>
            ReadSectorsSpec(src, toMillis, max, sink).error in {NotDataSector, UnsupportedAxes, InvalidArrayLength}
  {
    ReadSectorsErrors(src, toMillis, max, sink);
    if AllDecode(src, toMillis, 0, Budget(src, max)) {
      ReadSectorsSucceeds(src, toMillis, max, sink);
    } else {
      var k :| 0 <= k < Budget(src, max) && !Decodes(src[k], toMillis);
      var first := FirstFailure(src, toMillis, k);
      if first == 0 || sink.CallbackSink? || 0 <= max * SectorOf(src[0], toMillis).sampleCount < TwoTo32 {
        ReadSectorsFirstError(src, toMillis, max, sink, first);
      } else {
        ReadSectorsStart(src, toMillis, max, sink);
      }
    }
  }

  lemma ReadSectorsErrors<S, T>(src: seq<Block>, toMillis: DateTime -> int, max: int, sink: Sink<S, T>)
    ensures ReadSectorsSpec(src, toMillis, max, sink).Err? ==>
            ReadSectorsSpec(src, toMillis, max, sink).error in {NotDataSector, UnsupportedAxes, InvalidArrayLength}
  {
    if |src| == 0 {
      assert ReadAt(src, 0) == EndOfStream;
    } else if !Decodes(src[0], toMillis) {
      assert ReadAt(src, 0) == Filled(src[0]);
    } else {
      ReadSectorsStart(src, toMillis, max, sink);
      var begun := Begin(Data(SectorOf(src[0], toMillis)), max, sink);
      if begun.Ok? {
        ContinueErrors(src, toMillis, max, 1, begun.value);
      }
    }
  }

  lemma ReadSectorsSucceeds<S, T>(src: seq<Block>, toMillis: DateTime -> int, max: int, sink: Sink<S, T>)
    requires AllDecode(src, toMillis, 0, Budget(src, max))
    ensures ReadSectorsSpec(src, toMillis, max, sink).Ok? <==>
            (sink.ArraySink? ==> 1 <= |src| && 0 <= max * SectorOf(src[0], toMillis).sampleCount < TwoTo32)
    ensures ReadSectorsSpec(src, toMillis, max, sink).Ok? ==>
            ReadSectorsSpec(src, toMillis, max, sink).value.bufferRead == Max(1, Budget(src, max))
  {
    if |src| == 0 {
      assert ReadAt(src, 0) == EndOfStream;
    } else {
      ReadSectorsStart(src, toMillis, max, sink);
      var begun := Begin(Data(SectorOf(src[0], toMillis)), max, sink);
      if begun.Ok? {
        ContinueUnfold(src, toMillis, max, 1, begun.value);
      }
    }
  }

  /** The smallest index at or below k whose block does not decode. */
  lemma {:induction false} FirstFailure(src: seq<Block>, toMillis: DateTime -> int, k: int) returns (j: int)
    requires 0 <= k < |src| && !Decodes(src[k], toMillis)
    ensures 0 <= j <= k && !Decodes(src[j], toMillis) && AllDecode(src, toMillis, 0, j)
    decreases k
  {
    if AllDecode(src, toMillis, 0, k) {
      j := k;
    } else {
      var i :| 0 <= i < k && !Decodes(src[i], toMillis);
      j := FirstFailure(src, toMillis, i);
    }
  }

  /** A failing read reports the error of the first block that does not
      decode, unless (without a callback) the array was refused before it. */
  lemma ReadSectorsFirstError<S, T>(src: seq<Block>, toMillis: DateTime -> int, max: int, sink: Sink<S, T>, k: int)
    requires 0 <= k < Budget(src, max)
    requires AllDecode(src, toMillis, 0, k) && !Decodes(src[k], toMillis)
    requires k == 0 || sink.CallbackSink? || 0 <= max * SectorOf(src[0], toMillis).sampleCount < TwoTo32
    ensures ReadSectorsSpec(src, toMillis, max, sink) == Err(DecodeSector(Filled(src[k]), toMillis).error)
  {
    if k == 0 {
      assert ReadAt(src, 0) == Filled(src[0]);
    } else {
      ReadSectorsStart(src, toMillis, max, sink);
      var begun := Begin(Data(SectorOf(src[0], toMillis)), max, sink);
      assert AllDecode(src, toMillis, 1, k);
      ContinueFirstError(src, toMillis, max, 1, begun.value, k);
    }
  }

  /** Batch arguments for a run of sectors. */
  function Batches(ss: seq<Sector>): seq<CallbackArg>
  {
    seq(|ss|, i requires 0 <= i < |ss| => Batch(ss[i].data))
  }

  /** The arguments the callback receives, in order, when every read
      succeeds: `undefined` alone for an empty stream; otherwise each
      sector's samples, then `false` if the blocks ran out before the budget. */
  function CallbackArgs(src: seq<Block>, toMillis: DateTime -> int, max: int): (args: seq<CallbackArg>)
    requires AllDecode(src, toMillis, 0, Budget(src, max))
    ensures |args| >= 1
  {
    if |src| == 0 then [Missing]
    else Batches(SectorsOf(src, toMillis, 0, Budget(src, max))) + (if |src| < max then [Finished] else [])
  }

  /** The callback applied to the arguments in turn: its final state and
      the values it returned, concatenated. */
  function Feed<S, T>(callback: Callback<S, T>, state: S, args: seq<CallbackArg>): (S, seq<T>)
    decreases |args|
  {
    if |args| == 0 then (state, [])
    else
      var (next, x) := callback(state, args[0]);
      var (final, rest) := Feed(callback, next, args[1..]);
      (final, x + rest)
  }

  lemma {:induction false} FeedAppend<S, T>(callback: Callback<S, T>, state: S, a: seq<CallbackArg>, b: seq<CallbackArg>)
    ensures var (mid, xa) := Feed(callback, state, a);
            var (final, xb) := Feed(callback, mid, b);
            Feed(callback, state, a + b) == (final, xa + xb)
    decreases |a|
  {
    if |a| > 0 {
      var (next, x) := callback(state, a[0]);
      assert (a + b)[0] == a[0] && (a + b)[1..] == a[1..] + b;
      FeedAppend(callback, next, a[1..], b);
      var (mid, xa) := Feed(callback, next, a[1..]);
      var (final, xb) := Feed(callback, mid, b);
      assert Feed(callback, state, a) == (mid, x + xa);
      assert Feed(callback, state, a + b) == (final, x + (xa + xb));
      assert x + (xa + xb) == (x + xa) + xb;
    } else {
      assert a + b == b;
      assert forall xb: seq<T> :: [] + xb == xb;
    }
  }

  lemma {:induction false} DeliverAllCalls<S, T>(callback: Callback<S, T>, state: S, items: seq<Item<T>>, ss: seq<Sector>)
    ensures var (final, xs) := Feed(callback, state, Batches(ss));
            DeliverAll(Calls(callback, state, items), ss) == Calls(callback, final, items + Singles(xs))
    decreases |ss|
  {
    if |ss| > 0 {
      var (next, x) := callback(state, Batch(ss[0].data));
      assert Batches(ss)[1..] == Batches(ss[1..]);
      DeliverAllCalls(callback, next, items + Singles(x), ss[1..]);
      var (final, rest) := Feed(callback, next, Batches(ss[1..]));
      SinglesAppend(x, rest);
    } else {
      assert items + Singles([]) == items;
    }
  }

  /** The first sector read, when the first block decodes: the loop
      starts from what `Begin` made of it. */
  lemma ReadSectorsStart<S, T>(src: seq<Block>, toMillis: DateTime -> int, max: int, sink: Sink<S, T>)
    requires 1 <= |src| && Decodes(src[0], toMillis)
    ensures var begun := Begin(Data(SectorOf(src[0], toMillis)), max, sink);
            ReadSectorsSpec(src, toMillis, max, sink) ==
            if begun.Err? then Err(begun.error) else Continue(Reads(src, toMillis), max, 1, begun.value)
  {
    assert DecodeSector(ReadAt(src, 0), toMillis) == Ok(Data(SectorOf(src[0], toMillis)));
  }

  lemma FeedOne<S, T>(callback: Callback<S, T>, state: S, arg: CallbackArg)
    ensures Feed(callback, state, [arg]) == callback(state, arg)
  {
    var (next, x) := callback(state, arg);
    assert [arg][1..] == [];
    assert x + [] == x;
  }

  lemma BatchesCons(s0: Sector, ss: seq<Sector>, tail: seq<CallbackArg>)
    ensures (Batches([s0] + ss) + tail)[0] == Batch(s0.data)
    ensures (Batches([s0] + ss) + tail)[1..] == Batches(ss) + tail
  {
    assert Batches([s0] + ss) == [Batch(s0.data)] + Batches(ss);
  }

  lemma {:induction false} SinglesAppend<T>(a: seq<T>, b: seq<T>)
    ensures Singles(a + b) == Singles(a) + Singles(b)
    decreases |a|
  {
    if |a| == 0 {
      assert a + b == b;
    } else {
      assert (a + b)[0] == a[0] && (a + b)[1..] == a[1..] + b;
      SinglesAppend(a[1..], b);
    }
  }

  /** The loop's deliveries and the optional flush, in callback mode, are
      the callback fed the sectors' samples and then `false`. */
  lemma DeliverAndClose<S, T>(callback: Callback<S, T>, state: S, items: seq<Item<T>>, ss: seq<Sector>, flush: bool)
    ensures var (final, xs) := Feed(callback, state, Batches(ss) + (if flush then [Finished] else []));
            Closing(DeliverAll(Calls(callback, state, items), ss), flush) == Calls(callback, final, items + Singles(xs))
  {
    var tail := if flush then [Finished] else [];
    DeliverAllCalls(callback, state, items, ss);
    FeedAppend(callback, state, Batches(ss), tail);
    var (mid, xs) := Feed(callback, state, Batches(ss));
    if flush {
      var (final, x) := callback(mid, Finished);
      FeedOne(callback, mid, Finished);
      SinglesAppend(xs, x);
      assert Finish(Calls(callback, mid, items + Singles(xs))) ==
             Calls(callback, final, items + Singles(xs) + Singles(x));
    } else {
      assert Batches(ss) + tail == Batches(ss);
      assert xs + [] == xs;
    }
  }

  /** With a callback and every read succeeding, the result holds the first
      callback's values as one nested array (when there are any) followed
      by the values of every later call spread out, and the callback sees
      exactly the arguments `CallbackArgs` lists. */
  lemma CallbackTrace<S, T>(src: seq<Block>, toMillis: DateTime -> int, max: int, callback: Callback<S, T>, initial: S)
    requires AllDecode(src, toMillis, 0, Budget(src, max))
    ensures var args := CallbackArgs(src, toMillis, max);
            var (state, first) := callback(initial, args[0]);
            var (final, rest) := Feed(callback, state, args[1..]);
            ReadSectorsSpec(src, toMillis, max, CallbackSink(callback, initial)) ==
            Ok(Run(Calls(callback, final, (if |first| > 0 then [Nested(first)] else []) + Singles(rest)),
                   Max(1, Budget(src, max))))
  {
    var args := CallbackArgs(src, toMillis, max);
    var (state, first) := callback(initial, args[0]);
    var items: seq<Item<T>> := if |first| > 0 then [Nested(first)] else [];
    if |src| == 0 {
      assert args[1..] == [];
      assert items + Singles([]) == items;
    } else {
      var n := Budget(src, max);
      var s0 := SectorOf(src[0], toMillis);
      var ss := SectorsOf(src, toMillis, 1, n);
      assert SectorsOf(src, toMillis, 0, n) == [s0] + ss;
      var flush := if |src| < max then [Finished] else [];
      BatchesCons(s0, ss, flush);
      var begun := Calls(callback, state, items);
      ReadSectorsStart(src, toMillis, max, CallbackSink(callback, initial));
      assert Begin(Data(s0), max, CallbackSink(callback, initial)) == Ok(begun);
      ContinueUnfold(src, toMillis, max, 1, begun);
      DeliverAndClose(callback, state, items, ss, |src| < max);
    }
  }

  /** The header check of `read_cwa`: an empty stream fails on its first
      read, any first block not starting with 'M', 'D' is refused, and a
      result carries the decoded header and at least one buffer read. */
  lemma ReadCwaOutcome<S, T>(headerRead: ReadResult, src: seq<Block>, toMillis: DateTime -> int,
                             max: int, sink: Sink<S, T>)
    ensures headerRead.EndOfStream? ==> ReadCwaSpec(headerRead, src, toMillis, max, sink) == Err(OutsideView)
    ensures headerRead.Filled? ==>
            (ReadCwaSpec(headerRead, src, toMillis, max, sink) == Err(NotAHeader) <==>
             !(headerRead.block[0] == 0x4D && headerRead.block[1] == 0x44))
    ensures ReadCwaSpec(headerRead, src, toMillis, max, sink).Ok? ==>
            var file := ReadCwaSpec(headerRead, src, toMillis, max, sink).value;
            headerRead.Filled? && file.header == ReadHeader(headerRead.block) && file.header.isHeader &&
            file.bufferRead >= 1
  {
    if headerRead.Filled? {
      HeaderTagCheck(headerRead.block);
    }
    ReadSectorsOutcome(src, toMillis, max, sink);
  }

  // ---------------------------------------------------------------------
  // The array of samples

  /** All samples of a run of sectors, in order. */
  function Flat(ss: seq<Sector>): seq<Sample>
    decreases |ss|
  {
    if |ss| == 0 then [] else ss[0].data + Flat(ss[1..])
  }

  /** The sum of the sectors' sampleCount fields. */
  function Counts(ss: seq<Sector>): int
    decreases |ss|
  {
    if |ss| == 0 then 0 else ss[0].sampleCount + Counts(ss[1..])
  }

  /** Every sector holds exactly `c` samples and says so in its sampleCount. */
  predicate Uniform(ss: seq<Sector>, c: int)
  {
    forall i :: 0 <= i < |ss| ==> ss[i].sampleCount == c && |ss[i].data| == c
  }

  lemma PresentAppend(a: seq<Sample>, b: seq<Sample>)
    ensures |Present(a)| == |a|
    ensures Present(a + b) == Present(a) + Present(b)
  {
  }

  lemma {:induction false} UniformSizes(ss: seq<Sector>, c: int)
    requires Uniform(ss, c)
    ensures |Flat(ss)| == |ss| * c && Counts(ss) == |ss| * c && Announced(ss)
    decreases |ss|
  {
    if |ss| > 0 {
      assert Uniform(ss[1..], c);
      UniformSizes(ss[1..], c);
    }
  }

  /** Every sector holds as many samples as its sampleCount announces. */
  predicate Announced(ss: seq<Sector>)
    decreases |ss|
  {
    |ss| == 0 || (ss[0].sampleCount == |ss[0].data| && Announced(ss[1..]))
  }

  /** One splice of the loop, in place. */
  lemma DeliverInPlace<S, T>(slots: seq<Option<Sample>>, offset: int, s: Sector)
    requires s.sampleCount == |s.data| && 0 <= offset && offset + |s.data| <= |slots|
    ensures Deliver<S, T>(Slots(slots, offset), s) ==
            Slots(slots[..offset] + Present(s.data) + slots[offset + |s.data|..], offset + |s.data|)
  {
    PresentAppend(s.data, []);
    SpliceInRange(slots, offset, |s.data|, Present(s.data));
  }

  /** Two splices side by side are one splice of both runs. */
  lemma Regroup<X>(slots: seq<X>, offset: int, p: seq<X>, m: seq<X>, spliced: seq<X>, after: seq<X>)
    requires 0 <= offset && offset + |p| + |m| <= |slots|
    requires spliced == slots[..offset] + p + slots[offset + |p|..]
    requires after == spliced[..offset + |p|] + m + spliced[offset + |p| + |m|..]
    ensures after == slots[..offset] + (p + m) + slots[offset + |p| + |m|..]
  {
    assert spliced[..offset + |p|] == slots[..offset] + p;
    assert spliced[offset + |p| + |m|..] == slots[offset + |p| + |m|..];
  }

  lemma DeliverNone<S, T>(slots: seq<Option<Sample>>, offset: int, ss: seq<Sector>)
    requires |ss| == 0 && 0 <= offset <= |slots|
    ensures DeliverAll<S, T>(Slots(slots, offset), ss) ==
            Slots(slots[..offset] + Present(Flat(ss)) + slots[offset + |Flat(ss)|..], offset + |Flat(ss)|)
  {
    assert Present(Flat(ss)) == [];
    assert slots[..offset] + [] + slots[offset..] == slots;
  }

  /** The first sector's splice, taken out of the loop over sectors. */
  lemma DeliverFirst<S, T>(slots: seq<Option<Sample>>, offset: int, ss: seq<Sector>, spliced: seq<Option<Sample>>)
    requires |ss| > 0 && ss[0].sampleCount == |ss[0].data| && 0 <= offset && offset + |ss[0].data| <= |slots|
    requires spliced == slots[..offset] + Present(ss[0].data) + slots[offset + |ss[0].data|..]
    ensures DeliverAll<S, T>(Slots(slots, offset), ss) == DeliverAll<S, T>(Slots(spliced, offset + |ss[0].data|), ss[1..])
  {
    DeliverInPlace<S, T>(slots, offset, ss[0]);
  }

  /** The first sector's samples and then the others', laid in one run. */
  lemma LaidOut<S, T>(slots: seq<Option<Sample>>, offset: int, first: seq<Sample>, f: seq<Sample>, all: seq<Sample>,
                      spliced: seq<Option<Sample>>, after: seq<Option<Sample>>)
    requires all == first + f && 0 <= offset && offset + |all| <= |slots|
    requires spliced == slots[..offset] + Present(first) + slots[offset + |first|..]
    requires after == spliced[..offset + |first|] + Present(f) + spliced[offset + |first| + |f|..]
    ensures Collected<S, T>.Slots(after, offset + |first| + |f|) == Slots(slots[..offset] + Present(all) + slots[offset + |all|..], offset + |all|)
  {
    PresentAppend(first, f);
    Regroup(slots, offset, Present(first), Present(f), spliced, after);
  }

  /** Without a callback, the loop's splices lay the sectors' samples end to
      end from the offset on, overwriting as many slots as they fill, and
      the offset advances past them. */
  lemma {:induction false} DeliverAllSlots<S, T>(slots: seq<Option<Sample>>, offset: int, ss: seq<Sector>)
    requires Announced(ss) && 0 <= offset && offset + |Flat(ss)| <= |slots|
    ensures DeliverAll<S, T>(Slots(slots, offset), ss) ==
            Slots(slots[..offset] + Present(Flat(ss)) + slots[offset + |Flat(ss)|..], offset + |Flat(ss)|)
    decreases |ss|
  {
    if |ss| == 0 {
      DeliverNone<S, T>(slots, offset, ss);
    } else {
      var s, rest := ss[0], ss[1..];
      var all, f := Flat(ss), Flat(rest);
      assert all == s.data + f;
      var c := |s.data|;
      PresentAppend(s.data, []);
      var spliced := slots[..offset] + Present(s.data) + slots[offset + c..];
      var after := spliced[..offset + c] + Present(f) + spliced[offset + c + |f|..];
      DeliverFirst<S, T>(slots, offset, ss, spliced);
      DeliverAllSlots<S, T>(spliced, offset + c, rest);
      LaidOut<S, T>(slots, offset, s.data, f, all, spliced, after);
    }
  }

  lemma {:induction false} DeliverAllOffset<S, T>(slots: seq<Option<Sample>>, offset: int, ss: seq<Sector>)
    ensures DeliverAll<S, T>(Slots(slots, offset), ss).Slots?
    ensures DeliverAll<S, T>(Slots(slots, offset), ss).offset == offset + Counts(ss)
    decreases |ss|
  {
    if |ss| > 0 {
      var s := ss[0];
      DeliverAllOffset<S, T>(Splice(slots, offset, s.sampleCount, Present(s.data)), offset + s.sampleCount, ss[1..]);
    }
  }

  /** One splice of the loop whatever the sector's sampleCount: the
      sampleCount slots from the offset are replaced by all of the sector's
      samples, so the array grows or shrinks by the difference. */
  lemma DeliverAnyCount<S, T>(slots: seq<Option<Sample>>, offset: int, s: Sector)
    requires 0 <= offset && 0 <= s.sampleCount && offset + s.sampleCount <= |slots|
    ensures Deliver<S, T>(Slots(slots, offset), s) ==
            Slots(slots[..offset] + Present(s.data) + slots[offset + s.sampleCount..], offset + s.sampleCount)
    ensures |Deliver<S, T>(Slots(slots, offset), s).slots| == |slots| - s.sampleCount + |s.data|
  {
    PresentAppend(s.data, []);
    SpliceInRange(slots, offset, s.sampleCount, Present(s.data));
  }

  /** Every splice of the loop, over an array of `length` slots at the
      offset, starts inside the array and deletes no more than follows it. */
  predicate SplicesInRange(length: int, offset: int, ss: seq<Sector>)
    decreases |ss|
  {
    |ss| == 0 ||
    (0 <= offset && 0 <= ss[0].sampleCount && offset + ss[0].sampleCount <= length &&
     SplicesInRange(length - ss[0].sampleCount + |ss[0].data|, offset + ss[0].sampleCount, ss[1..]))
  }

  /** Without a callback and for any sectors whose splices stay inside the
      array, the array ends with as many more slots as the sectors hold
      samples beyond what their sampleCount fields announce. */
  lemma {:induction false} DeliverAllLength<S, T>(slots: seq<Option<Sample>>, offset: int, ss: seq<Sector>)
    requires SplicesInRange(|slots|, offset, ss)
    ensures DeliverAll<S, T>(Slots(slots, offset), ss).Slots?
    ensures |DeliverAll<S, T>(Slots(slots, offset), ss).slots| == |slots| + |Flat(ss)| - Counts(ss)
    decreases |ss|
  {
    if |ss| > 0 {
      var s := ss[0];
      DeliverAnyCount<S, T>(slots, offset, s);
      var next := Deliver<S, T>(Slots(slots, offset), s);
      DeliverAllLength<S, T>(next.slots, next.offset, ss[1..]);
    }
  }

  /** Without a callback, `results_offset` ends at the sum of the sampleCount
      fields of the sectors read. */
  lemma ArrayOffset<S, T>(src: seq<Block>, toMillis: DateTime -> int, max: int)
    requires AllDecode(src, toMillis, 0, Budget(src, max))
    ensures var r := ReadSectorsSpec<S, T>(src, toMillis, max, ArraySink);
            r.Ok? ==> r.value.data.Slots? && r.value.data.offset == Counts(SectorsOf(src, toMillis, 0, Budget(src, max)))
  {
    if |src| > 0 {
      ReadSectorsStart<S, T>(src, toMillis, max, ArraySink);
      var begun := Begin<S, T>(Data(SectorOf(src[0], toMillis)), max, ArraySink);
      if begun.Ok? {
        ContinueUnfold(src, toMillis, max, 1, begun.value);
        var n := Budget(src, max);
        var rest := SectorsOf(src, toMillis, 1, n);
        assert SectorsOf(src, toMillis, 0, n) == [SectorOf(src[0], toMillis)] + rest;
        assert SectorsOf(src, toMillis, 0, n)[1..] == rest;
        DeliverAllOffset<S, T>(begun.value.slots, begun.value.offset, rest);
      }
    }
  }

  /** The first sector's `c` samples and the other `n - 1` sectors' fill `n * c` slots. */
  lemma MulSplit(n: int, max: int, c: int, filled: int)
    requires 1 <= n <= max && 0 <= c && filled == (n - 1) * c
    ensures c + filled == n * c <= max * c
  {
    MulMonotone(n, max, c);
  }

  lemma MulSub(a: int, b: int, c: int)
    ensures a * c - b * c == (a - b) * c
  {
  }

  lemma MulMonotone(n: int, m: int, c: int)
    requires n <= m && 0 <= c
    ensures n * c <= m * c
  {
    if n < m && 0 < c { MulAtLeast(c, m - n); }
  }

  lemma {:induction false} SectorsOfLength(src: seq<Block>, toMillis: DateTime -> int, lo: int, hi: int)
    requires 0 <= lo <= hi <= |src| && AllDecode(src, toMillis, lo, hi)
    ensures |SectorsOf(src, toMillis, lo, hi)| == hi - lo
    decreases hi - lo
  {
    if lo < hi {
      SectorsOfLength(src, toMillis, lo + 1, hi);
    }
  }

  lemma SectorsOfFirst(src: seq<Block>, toMillis: DateTime -> int, lo: int, hi: int)
    requires 0 <= lo < hi <= |src| && AllDecode(src, toMillis, lo, hi)
    ensures SectorsOf(src, toMillis, lo, hi) == [SectorOf(src[lo], toMillis)] + SectorsOf(src, toMillis, lo + 1, hi)
  {
  }

  lemma AfterPrefix<X>(a: seq<X>, b: seq<X>, k: int)
    requires 0 <= k <= |b|
    ensures (a + b)[|a| + k..] == b[k..]
  {
  }

  lemma BlankTail(m: nat, k: nat)
    requires k <= m
    ensures Blank(m)[k..] == Blank(m - k)
  {
  }

  /** The first splice into `new Array(length)`: the samples, then the
      remaining empty slots. */
  lemma FirstSplice(length: nat, data: seq<Sample>)
    requires |data| <= length
    ensures Splice(Blank(length), 0, |data|, Present(data)) == Present(data) + Blank(length - |data|)
  {
    PresentAppend(data, []);
    SpliceInRange(Blank(length), 0, |data|, Present(data));
    BlankTail(length, |data|);
  }

  /** The array `read_cwa` builds from the first sector. */
  lemma ArrayBegin<S, T>(s: Sector, max: int)
    requires s.sampleCount == |s.data| && 1 <= max && max * s.sampleCount < TwoTo32
    ensures Begin<S, T>(Data(s), max, ArraySink) ==
            Ok(Slots(Present(s.data) + Blank(max * s.sampleCount - s.sampleCount), s.sampleCount))
  {
    MulMonotone(1, max, s.sampleCount);
    FirstSplice(max * s.sampleCount, s.data);
  }

  /** Without a callback and when every block in the budget decodes, the
      read is the first array followed by the loop's splices. */
  lemma ArrayRun<S, T>(src: seq<Block>, toMillis: DateTime -> int, max: int)
    requires 1 <= |src| && 1 <= max && AllDecode(src, toMillis, 0, Budget(src, max))
    requires var s := SectorOf(src[0], toMillis); s.sampleCount == |s.data| && max * s.sampleCount < TwoTo32
    ensures var s := SectorOf(src[0], toMillis); max * s.sampleCount >= s.sampleCount
    ensures var s := SectorOf(src[0], toMillis);
            var n := Budget(src, max);
            ReadSectorsSpec<S, T>(src, toMillis, max, ArraySink) ==
            Ok(Run(DeliverAll(Slots(Present(s.data) + Blank(max * s.sampleCount - s.sampleCount), s.sampleCount),
                              SectorsOf(src, toMillis, 1, n)), n))
  {
    var s := SectorOf(src[0], toMillis);
    MulMonotone(1, max, s.sampleCount);
    ArrayBegin<S, T>(s, max);
    ReadSectorsStart<S, T>(src, toMillis, max, ArraySink);
    var slots := Present(s.data) + Blank(max * s.sampleCount - s.sampleCount);
    var begun: Collected<S, T> := Slots(slots, s.sampleCount);
    var n := Budget(src, max);
    assert Max(1, Min(|src|, max)) == n;
    assert AllDecode(src, toMillis, 1, n);
    ContinueUnfold(src, toMillis, max, 1, begun);
    var rest := SectorsOf(src, toMillis, 1, n);
    DeliverAllOffset<S, T>(slots, s.sampleCount, rest);
    var delivered := DeliverAll(begun, rest);
    assert Closing(delivered, 1 < max && |src| < max) == delivered;
    assert Continue(Reads(src, toMillis), max, 1, begun) == Ok(Run(delivered, n));
  }

  /** After the first sector, the loop's splices fill the array of
      `length` slots from the front, leaving the unfilled slots empty. */
  lemma FillAfterFirst<S, T>(first: seq<Sample>, rest: seq<Sector>, length: int, total: int, all: seq<Sample>)
    requires Announced(rest) && total == |first| + |Flat(rest)| <= length && all == first + Flat(rest)
    ensures DeliverAll<S, T>(Slots(Present(first) + Blank(length - |first|), |first|), rest) ==
            Slots(Present(all) + Blank(length - total), total)
  {
    var c, filled := |first|, |Flat(rest)|;
    PresentAppend(first, Flat(rest));
    var slots := Present(first) + Blank(length - c);
    DeliverAllSlots<S, T>(slots, c, rest);
    assert slots[..c] == Present(first);
    AfterPrefix(Present(first), Blank(length - c), filled);
    BlankTail(length - c, filled);
  }

  /** The slots left empty once `n` sectors of `c` samples each are laid in
      an array sized for `max` of them. */
  function EmptySlots(max: int, n: int, c: int): nat
    requires n <= max && 0 <= c
  {
    (max - n) * c
  }

  /** A run of sectors that all hold `c` samples, the first of them taken
      into the array of `max * c` slots: the loop lays the others after it. */
  lemma FillUniform<S, T>(s: Sector, rest: seq<Sector>, ss: seq<Sector>, max: int, c: int, n: int)
    requires ss == [s] + rest && Uniform(ss, c) && n == |ss| <= max && 0 <= c
    ensures max * s.sampleCount - s.sampleCount >= 0
    ensures DeliverAll<S, T>(Slots(Present(s.data) + Blank(max * s.sampleCount - s.sampleCount), s.sampleCount), rest) ==
            Slots(Present(Flat(ss)) + Blank(EmptySlots(max, n, c)), n * c)
  {
    assert ss[0] == s && ss[1..] == rest;
    assert Uniform(rest, c);
    UniformSizes(rest, c);
    MulSplit(|ss|, max, c, |Flat(rest)|);
    assert Flat(ss) == s.data + Flat(rest);
    MulSub(max, n, c);
    FillAfterFirst<S, T>(s.data, rest, max * c, |ss| * c, Flat(ss));
  }

  /** Without a callback, when every sector read holds the sampleCount it
      announces (the same c throughout, as a full 3-axis sector's 120), the
      array holds all their samples end to end followed by empty slots up
      to `max_buffers * c`, and `results_offset` is the number of samples. */
  lemma ArrayFill<S, T>(src: seq<Block>, toMillis: DateTime -> int, max: int, c: int)
    requires 1 <= |src| && 1 <= max && 0 <= c && max * c < TwoTo32
    requires AllDecode(src, toMillis, 0, Budget(src, max))
    requires Uniform(SectorsOf(src, toMillis, 0, Budget(src, max)), c)
    ensures var n := Budget(src, max);
            var ss := SectorsOf(src, toMillis, 0, n);
            ReadSectorsSpec<S, T>(src, toMillis, max, ArraySink) ==
            Ok(Run(Slots(Present(Flat(ss)) + Blank(EmptySlots(max, n, c)), n * c), n))
  {
    var n := Budget(src, max);
    var ss := SectorsOf(src, toMillis, 0, n);
    var s := SectorOf(src[0], toMillis);
    var rest := SectorsOf(src, toMillis, 1, n);
    SectorsOfLength(src, toMillis, 0, n);
    SectorsOfFirst(src, toMillis, 0, n);
    FillUniform<S, T>(s, rest, ss, max, c, n);
    ArrayRun<S, T>(src, toMillis, max);
  }

  /** The array `read_cwa` builds from the first sector is the loop's splice
      applied to `new Array(max_buffers * sampleCount)` at offset 0. */
  lemma BeginAsSplice<S, T>(s: Sector, max: int, length: int)
    requires length == max * s.sampleCount && 0 <= length < TwoTo32
    ensures Begin<S, T>(Data(s), max, ArraySink) == Ok(Deliver(Slots(Blank(length), 0), s))
  {
  }

  /** Without a callback, for any sectors read: the result is every
      sector's splice in turn, starting from `new Array(max_buffers * c)`
      at offset 0, with c the first sector's sampleCount. */
  lemma ArraySplices<S, T>(src: seq<Block>, toMillis: DateTime -> int, max: int)
    requires 1 <= |src| && AllDecode(src, toMillis, 0, Budget(src, max))
    requires 0 <= max * SectorOf(src[0], toMillis).sampleCount < TwoTo32
    ensures var n := Budget(src, max);
            ReadSectorsSpec<S, T>(src, toMillis, max, ArraySink) ==
            Ok(Run(DeliverAll(Slots(Blank(max * SectorOf(src[0], toMillis).sampleCount), 0), SectorsOf(src, toMillis, 0, n)), n))
  {
    var s := SectorOf(src[0], toMillis);
    var n := Budget(src, max);
    var length := max * s.sampleCount;
    SectorsOfFirst(src, toMillis, 0, n);
    var rest := SectorsOf(src, toMillis, 1, n);
    ReadSectorsStart<S, T>(src, toMillis, max, ArraySink);
    var first := Deliver<S, T>(Slots(Blank(length), 0), s);
    BeginAsSplice<S, T>(s, max, length);
    assert Max(1, Min(|src|, max)) == n;
    assert AllDecode(src, toMillis, 1, n);
    ContinueUnfold(src, toMillis, max, 1, first);
    DeliverAllOffset<S, T>(first.slots, first.offset, rest);
    var delivered := DeliverAll(first, rest);
    assert Closing(delivered, 1 < max && |src| < max) == delivered;
  }

  lemma SplicedLength(length: int, ss: seq<Sector>)
    requires |ss| > 0 && SplicesInRange(length, 0, ss)
    ensures 0 <= length
  {
  }

  lemma SplicedFromBlank<S, T>(r: Result<Run<S, T>>, length: nat, ss: seq<Sector>, n: int)
    requires SplicesInRange(length, 0, ss) && r == Ok(Run(DeliverAll(Slots(Blank(length), 0), ss), n))
    ensures r.Ok? && r.value.data.Slots? && |r.value.data.slots| == length + |Flat(ss)| - Counts(ss)
  {
    DeliverAllLength<S, T>(Blank(length), 0, ss);
  }

  /** Without a callback, for any sectors read whose splices stay inside
      the array: `new Array(max_buffers * c)` with c the first sector's
      sampleCount, then every splice, leave an array whose length is that
      size plus the samples held minus the sampleCounts announced. A sector
      that holds fewer samples than it announces shrinks the array, one
      that holds more grows it. */
  lemma ArrayLength<S, T>(src: seq<Block>, toMillis: DateTime -> int, max: int)
    requires 1 <= |src| && AllDecode(src, toMillis, 0, Budget(src, max))
    requires max * SectorOf(src[0], toMillis).sampleCount < TwoTo32
    requires SplicesInRange(max * SectorOf(src[0], toMillis).sampleCount, 0, SectorsOf(src, toMillis, 0, Budget(src, max)))
    ensures var ss := SectorsOf(src, toMillis, 0, Budget(src, max));
            var r := ReadSectorsSpec<S, T>(src, toMillis, max, ArraySink);
            r.Ok? && r.value.data.Slots? &&
            |r.value.data.slots| == max * SectorOf(src[0], toMillis).sampleCount + |Flat(ss)| - Counts(ss)
  {
    var n := Budget(src, max);
    var ss := SectorsOf(src, toMillis, 0, n);
    var length := max * SectorOf(src[0], toMillis).sampleCount;
    SectorsOfLength(src, toMillis, 0, n);
    SplicedLength(length, ss);
    ArraySplices<S, T>(src, toMillis, max);
    SplicedFromBlank<S, T>(ReadSectorsSpec(src, toMillis, max, ArraySink), length, ss, n);
  }
}
