/** Splitting a range evaluation into chunks, and the two ClickHouse grids a chunk is evaluated on.
    Times and steps are integer milliseconds. */
module RangeChunks {
  import opened GoBasics
  import opened Division

  datatype EvalMode = InstantMode | RangeMode

  datatype EvalParams = EvalParams(mode: EvalMode, evaluationTime: int, start: int, end: int, step: int)

  /** The instant of Go's zero time.Time in milliseconds since the Unix epoch. */
  const ZERO_TIME := -62_135_596_800_000

  /** The parameters of an evaluation at one time: the bounds are left at the zero time. */
  function InstantAt(t: int): EvalParams {
    EvalParams(InstantMode, t, ZERO_TIME, ZERO_TIME, 0)
  }

  /** The errors of the local evaluator, with the context its callers add. */
  datatype EvalError = BadData(msg: string) | ExecutionError(msg: string) | InContext(what: string, cause: EvalError)

  const BAD_STEP := BadData("step must be greater than zero for chunked range evaluation")
  const BAD_CHUNK_POINTS := BadData("chunk points per series must be greater than zero for chunked range evaluation")

  // ---- Grids ----------------------------------------------------------------------------

  /** start, start+step, ... up to and including end. */
  function Grid(start: int, end: int, step: int): seq<int>
    requires step > 0
    decreases end - start
  {
    if start > end then [] else [start] + Grid(start + step, end, step)
  }

  /** The grid has (end-start)/step + 1 points, the i-th of which is start + i*step. */
  lemma {:induction false} GridIsArithmetic(start: int, end: int, step: int)
    requires step > 0
    ensures start <= end ==> |Grid(start, end, step)| == (end - start) / step + 1
    ensures start > end ==> Grid(start, end, step) == []
    ensures forall i | 0 <= i < |Grid(start, end, step)| :: Grid(start, end, step)[i] == start + i * step <= end
    decreases end - start
  {
    if start <= end {
      GridIsArithmetic(start + step, end, step);
      QuotientStep(end - start, step);
      var rest := Grid(start + step, end, step);
      forall i | 0 <= i < |rest| + 1
        ensures ([start] + rest)[i] == start + i * step <= end
      {
        if i > 0 {
          ProductStep(i, step);
        }
      }
    }
  }

  /** Cutting a grid after n of its points. */
  lemma {:induction false} GridSplit(start: int, end: int, step: int, n: nat)
    requires step > 0 && 0 < n <= |Grid(start, end, step)|
    ensures start + (n - 1) * step <= end
    ensures Grid(start, end, step) == Grid(start, start + (n - 1) * step, step) + Grid(start + n * step, end, step)
    ensures |Grid(start, start + (n - 1) * step, step)| == n
    decreases n
  {
    ProductStep(n, step);
    if n == 1 {
      assert Grid(start, start, step) == [start];
    } else {
      ProductStep(n - 1, step);
      GridSplit(start + step, end, step, n - 1);
    }
  }

  // ---- Chunks ---------------------------------------------------------------------------

  /** How many points the first chunk of a non-empty range takes. */
  function FirstChunkPoints(start: int, end: int, step: int, chunkPoints: int): int
    requires step > 0 && chunkPoints > 0 && start <= end
  {
    Min(chunkPoints, |Grid(start, end, step)|)
  }

  lemma FirstChunkAdvances(start: int, end: int, step: int, chunkPoints: int)
    requires step > 0 && chunkPoints > 0 && start <= end
    ensures 0 < FirstChunkPoints(start, end, step, chunkPoints) <= |Grid(start, end, step)|
    ensures start < start + FirstChunkPoints(start, end, step, chunkPoints) * step
  {
    var n := FirstChunkPoints(start, end, step, chunkPoints);
    assert n * step >= step;
  }

  /** The range in chunks of chunkPoints grid points, the last one shorter. */
  function Split(params: EvalParams, chunkPoints: int): seq<EvalParams>
    requires params.step > 0 && chunkPoints > 0
    decreases params.end - params.start
  {
    if params.start > params.end then []
    else
      var n := FirstChunkPoints(params.start, params.end, params.step, chunkPoints);
      FirstChunkAdvances(params.start, params.end, params.step, chunkPoints);
      [params.(end := params.start + (n - 1) * params.step)]
          + Split(params.(start := params.start + n * params.step), chunkPoints)
  }

  lemma ChunkBounds(start: int, end: int, step: int, chunkPoints: int)
    requires step > 0 && chunkPoints > 0 && start <= end
    ensures var n := Min(chunkPoints, GoDiv(end - start, step) + 1);
            && n == FirstChunkPoints(start, end, step, chunkPoints)
            && start + step * (n - 1) == start + (n - 1) * step <= end
            && start < start + (n - 1) * step + step == start + n * step
  {
    var n := FirstChunkPoints(start, end, step, chunkPoints);
    GridIsArithmetic(start, end, step);
    FirstChunkAdvances(start, end, step, chunkPoints);
    GridSplit(start, end, step, n);
    ProductStep(n, step);
  }

  method SplitRangeIntoChunks(params: EvalParams, chunkPoints: int) returns (r: Result<seq<EvalParams>, EvalError>)
    ensures params.mode != RangeMode ==> r == Ok([params])
    ensures params.mode == RangeMode && params.step <= 0 ==> r == Err(BAD_STEP)
    ensures params.mode == RangeMode && params.step > 0 && chunkPoints <= 0 ==> r == Err(BAD_CHUNK_POINTS)
    ensures params.mode == RangeMode && params.step > 0 && chunkPoints > 0 ==> r == Ok(Split(params, chunkPoints))
  {
    if params.mode != RangeMode {
      return Ok([params]);
    }
    if params.step <= 0 {
      return Err(BAD_STEP);
    }
    if chunkPoints <= 0 {
      return Err(BAD_CHUNK_POINTS);
    }
    var chunks := [];
    var currentStart := params.start;
    while currentStart <= params.end
      invariant chunks + Split(params.(start := currentStart), chunkPoints) == Split(params, chunkPoints)
      decreases params.end - currentStart
    {
      ChunkBounds(currentStart, params.end, params.step, chunkPoints);
      var remainingPoints := GoDiv(params.end - currentStart, params.step) + 1;
      var pointsThisChunk := chunkPoints;
      if remainingPoints < pointsThisChunk {
        pointsThisChunk := remainingPoints;
      }
      var currentEnd := currentStart + params.step * (pointsThisChunk - 1);
      if currentEnd > params.end {
        currentEnd := params.end;
      }
      var chunk := params.(start := currentStart, end := currentEnd);
      SplitUnfolds(params.(start := currentStart), chunkPoints);
      SplitMoves(chunks, Split(params.(start := currentStart), chunkPoints));
      chunks := chunks + [chunk];
      currentStart := currentEnd + params.step;
    }
    assert chunks + [] == chunks;
    return Ok(chunks);
  }

  lemma SplitMoves<T>(done: seq<T>, todo: seq<T>)
    requires todo != []
    ensures done + todo == (done + [todo[0]]) + todo[1..]
  {
  }

  /** The grids of the chunks, one after the other. */
  function Grids(chunks: seq<EvalParams>): seq<int>
    requires forall i | 0 <= i < |chunks| :: chunks[i].step > 0
  {
    if chunks == [] then [] else Grid(chunks[0].start, chunks[0].end, chunks[0].step) + Grids(chunks[1..])
  }

  /** Number of chunks of at most c points that n points need. */
  function CeilDiv(n: nat, c: int): nat
    requires c > 0
  {
    (n + c - 1) / c
  }

  /** A chunk differs from the whole range in its bounds only, is not empty, holds at most
      chunkPoints points, and ends on its own grid. */
  predicate IsChunkOf(chunk: EvalParams, params: EvalParams, chunkPoints: int)
    requires params.step > 0
  {
    && chunk == params.(start := chunk.start, end := chunk.end)
    && params.start <= chunk.start <= chunk.end <= params.end
    && 0 < |Grid(chunk.start, chunk.end, chunk.step)| <= chunkPoints
    && chunk.end == chunk.start + (|Grid(chunk.start, chunk.end, chunk.step)| - 1) * chunk.step
  }

  lemma {:induction false} SplitMakesChunks(params: EvalParams, chunkPoints: int)
    requires params.step > 0 && chunkPoints > 0
    ensures forall i | 0 <= i < |Split(params, chunkPoints)| ::
        IsChunkOf(Split(params, chunkPoints)[i], params, chunkPoints)
    decreases params.end - params.start
  {
    if params.start <= params.end {
      FirstChunkAdvances(params.start, params.end, params.step, chunkPoints);
      var n := FirstChunkPoints(params.start, params.end, params.step, chunkPoints);
      GridSplit(params.start, params.end, params.step, n);
      ProductStep(n, params.step);
      var later := params.(start := params.start + n * params.step);
      SplitMakesChunks(later, chunkPoints);
      SplitUnfolds(params, chunkPoints);
      forall i | 0 < i < |Split(params, chunkPoints)|
        ensures IsChunkOf(Split(params, chunkPoints)[i], params, chunkPoints)
      {
        assert Split(params, chunkPoints)[i] == Split(later, chunkPoints)[i - 1];
        assert IsChunkOf(Split(later, chunkPoints)[i - 1], later, chunkPoints);
      }
    }
  }

  /** Every chunk but the last is full: it spans chunkPoints grid points. */
  lemma {:induction false} SplitFillsChunks(params: EvalParams, chunkPoints: int)
    requires params.step > 0 && chunkPoints > 0
    ensures var chunks := Split(params, chunkPoints);
            forall i | 0 <= i < |chunks| - 1 :: chunks[i].end == chunks[i].start + (chunkPoints - 1) * params.step
    decreases params.end - params.start
  {
    if params.start <= params.end {
      FirstChunkAdvances(params.start, params.end, params.step, chunkPoints);
      var n := FirstChunkPoints(params.start, params.end, params.step, chunkPoints);
      var later := params.(start := params.start + n * params.step);
      SplitFillsChunks(later, chunkPoints);
      SplitUnfolds(params, chunkPoints);
      if n < chunkPoints {
        ShortChunkIsLast(params.start, params.end, params.step);
      }
    }
  }

  /** After all points of a grid there are none left. */
  lemma ShortChunkIsLast(start: int, end: int, step: int)
    requires step > 0 && start <= end
    ensures start + |Grid(start, end, step)| * step > end
  {
    GridIsArithmetic(start, end, step);
    var q := (end - start) / step;
    assert end - start == q * step + (end - start) % step;
    ProductStep(q + 1, step);
  }

  /** The chunks partition the grid of the range into ceil(N/chunkPoints) runs. */
  lemma {:induction false} SplitCoversTheGrid(params: EvalParams, chunkPoints: int)
    requires params.step > 0 && chunkPoints > 0
    ensures var chunks, grid := Split(params, chunkPoints), Grid(params.start, params.end, params.step);
            && (forall i | 0 <= i < |chunks| :: IsChunkOf(chunks[i], params, chunkPoints))
            && Grids(chunks) == grid
            && (forall i | 0 <= i < |chunks| - 1 :: chunks[i].end == chunks[i].start + (chunkPoints - 1) * params.step)
            && |chunks| == CeilDiv(|grid|, chunkPoints)
    decreases params.end - params.start
  {
    SplitMakesChunks(params, chunkPoints);
    SplitFillsChunks(params, chunkPoints);
    var grid := Grid(params.start, params.end, params.step);
    if params.start > params.end {
      QuotientIs(chunkPoints - 1, chunkPoints, 0);
    } else {
      FirstChunkAdvances(params.start, params.end, params.step, chunkPoints);
      var n := FirstChunkPoints(params.start, params.end, params.step, chunkPoints);
      GridSplit(params.start, params.end, params.step, n);
      SplitCoversTheGrid(params.(start := params.start + n * params.step), chunkPoints);
      SplitUnfolds(params, chunkPoints);
      CeilDivStep(|grid|, chunkPoints);
    }
  }

  lemma SplitUnfolds(params: EvalParams, chunkPoints: int)
    requires params.step > 0 && chunkPoints > 0 && params.start <= params.end
    ensures var n := FirstChunkPoints(params.start, params.end, params.step, chunkPoints);
            var chunks := Split(params, chunkPoints);
            && |chunks| > 0
            && chunks[0] == params.(end := params.start + (n - 1) * params.step)
            && chunks[1..] == Split(params.(start := params.start + n * params.step), chunkPoints)
  {
  }

  lemma CeilDivStep(n: nat, c: int)
    requires n > 0 && c > 0
    ensures CeilDiv(n, c) == 1 + CeilDiv(n - Min(c, n), c)
  {
    QuotientStep(n + c - 1, c);
    if n < c {
      QuotientIs(c - 1, c, 0);
      QuotientIs(n - 1, c, 0);
    }
  }

  // ---- ClickHouse grids -----------------------------------------------------------------

  /** range(start, stop, step): strictly below stop. */
  function ClickHouseRange(start: int, stop: int, step: int): seq<int>
    requires step > 0
  {
    Grid(start, stop - 1, step)
  }

  /** The grid of the parameterised expression, with stop end + step. */
  function GridParams(start: int, end: int, step: int): seq<int>
    requires step > 0
  {
    ClickHouseRange(start, end + step, step)
  }

  /** The grid of the literal expression, with stop end + 1. */
  function GridLiteral(start: int, end: int, step: int): seq<int>
    requires step > 0
  {
    ClickHouseRange(start, end + 1, step)
  }

  /** The literal grid is the evaluation grid; the parameterised one is too, unless the end is off
      the grid (and not a whole step before the start): then it has exactly one more point. */
  lemma {:induction false} GridsCompared(start: int, end: int, step: int)
    requires step > 0
    ensures GridLiteral(start, end, step) == Grid(start, end, step)
    ensures (end - start) % step == 0 || end + step <= start ==> GridParams(start, end, step) == Grid(start, end, step)
    ensures (end - start) % step != 0 && end + step > start ==>
              GridParams(start, end, step) == Grid(start, end, step) + [start + |Grid(start, end, step)| * step]
    decreases end - start
  {
    if start <= end {
      GridsCompared(start + step, end, step);
      RemainderShift(end - start, step);
      var rest := Grid(start + step, end, step);
      ProductStep(|rest| + 1, step);
      if end + step <= start + step {
        QuotientIs(0, step, 0);
      }
    } else if end + step > start {
      QuotientIs(end - start, step, -1);
      assert GridParams(start, end, step) == [start] + Grid(start + step, end + step - 1, step);
      assert [start] == [] + [start + 0 * step];
    }
  }

  /** The two ClickHouse grids and the evaluation grid are one whenever the end is on the grid. */
  lemma AlignedGridsAgree(start: int, n: nat, step: int)
    requires step > 0
    ensures var end := start + n * step;
            GridParams(start, end, step) == GridLiteral(start, end, step) == Grid(start, end, step)
  {
    var end := start + n * step;
    GridsCompared(start, end, step);
    QuotientIs(n * step, step, n);
    assert end - start == n * step;
  }

  /** On every chunk the two ClickHouse grids and the evaluation grid are one and the same. */
  lemma ChunkGridsAgree(params: EvalParams, chunkPoints: int, i: nat)
    requires params.step > 0 && chunkPoints > 0 && i < |Split(params, chunkPoints)|
    ensures var chunk := Split(params, chunkPoints)[i];
            && chunk.step == params.step
            && GridParams(chunk.start, chunk.end, chunk.step)
               == GridLiteral(chunk.start, chunk.end, chunk.step)
               == Grid(chunk.start, chunk.end, chunk.step)
  {
    SplitCoversTheGrid(params, chunkPoints);
    var chunk := Split(params, chunkPoints)[i];
    assert IsChunkOf(chunk, params, chunkPoints);
    AlignedGridsAgree(chunk.start, |Grid(chunk.start, chunk.end, chunk.step)| - 1, chunk.step);
  }
}
