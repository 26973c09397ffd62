/** The sample generator of the long-range seeder: `advanceSeries`, the construction of one
    remote-write request per batch, and the batching of a whole window.

    Times are integer nanoseconds. The waveform of a series is opaque: a function from the
    series' counter state, the grid time and the step to the new state and the value. */
module SeedGenerator {
  import opened GoBasics
  import opened Division

  /** A float64; it is only passed around, never computed with. */
  type Float = real

  const NANOS_PER_MILLI := 1_000_000

  datatype Point = Point(timestamp: int, value: Float)

  datatype TimeSeries = TimeSeries(series: nat, samples: seq<Point>)

  /** One sample together with the series it belongs to. */
  datatype Sample = Sample(series: nat, point: Point)

  datatype SeriesDesc = SeriesDesc(
    activeStart: Option<int>,
    activeEnd: Option<int>,
    sampleEvery: int,
    sampleOffset: int,
    wave: (Float, int, int) -> (Float, Float))

  /** Go's Time.UnixMilli rounds down, also before the epoch. */
  function UnixMilli(ts: int): int {
    ts / NANOS_PER_MILLI
  }

  /** Whether the series has a sample at grid time ts: inside its active window and on its cadence. */
  predicate Emits(desc: SeriesDesc, ts: int, step: int)
    requires step > 0
  {
    && (desc.activeStart.Some? ==> desc.activeStart.value <= ts)
    && (desc.activeEnd.Some? ==> ts < desc.activeEnd.value)
    && (desc.sampleEvery > 1 ==>
          var stepMillis := GoDiv(step, NANOS_PER_MILLI);
          && stepMillis > 0
          && (GoDiv(UnixMilli(ts), stepMillis) + desc.sampleOffset) % desc.sampleEvery == 0)
  }

  /** What the loop of one series depends on: which grid times carry a sample, and the wave. */
  datatype Walk = Walk(emits: int -> bool, wave: (Float, int) -> (Float, Float))

  function WalkOf(desc: SeriesDesc, step: int): Walk
    requires step > 0
  {
    Walk(ts => Emits(desc, ts, step), (st: Float, ts: int) => desc.wave(st, ts, step))
  }

  /** The counter state after walking the grid start, start+step, ... strictly below end. */
  function StateAfter(walk: Walk, st: Float, start: int, end: int, step: int): Float
    requires step > 0
    decreases end - start
  {
    if start >= end then st
    else StateAfter(walk, if walk.emits(start) then walk.wave(st, start).0 else st, start + step, end, step)
  }

  /** The samples of that walk. */
  function Points(walk: Walk, st: Float, start: int, end: int, step: int): seq<Point>
    requires step > 0
    decreases end - start
  {
    if start >= end then []
    else if !walk.emits(start) then Points(walk, st, start + step, end, step)
    else
      var (st', v) := walk.wave(st, start);
      [Point(UnixMilli(start), v)] + Points(walk, st', start + step, end, step)
  }

  function WalksOf(descs: seq<SeriesDesc>, step: int): (walks: seq<Walk>)
    requires step > 0
  {
    seq(|descs|, i requires 0 <= i < |descs| => WalkOf(descs[i], step))
  }

  /** The grid times of [start, end) at which a description has a sample: inside its active window, and
      on its cadence, which needs a step of a millisecond at least. */
  predicate HasSample(desc: SeriesDesc, start: int, end: int, step: int, ts: int)
    requires step > 0
  {
    && start <= ts < end && (ts - start) % step == 0
    && (desc.activeStart == None || desc.activeStart.value <= ts)
    && (desc.activeEnd == None || ts < desc.activeEnd.value)
    && (desc.sampleEvery <= 1 ||
          (step / 1_000_000 > 0
           && (GoDiv(ts / 1_000_000, step / 1_000_000) + desc.sampleOffset) % desc.sampleEvery == 0))
  }

  /** `times` lists those grid times in order. */
  ghost predicate SampleTimes(desc: SeriesDesc, start: int, end: int, step: int, times: seq<int>)
    requires step > 0
  {
    && (forall i, j | 0 <= i < j < |times| :: times[i] < times[j])
    && (forall ts :: ts in times <==> HasSample(desc, start, end, step, ts))
  }

  /** The counter state is carried from each time to the next, and each sample is the wave at its time
      and state, stamped with the time in whole milliseconds. */
  ghost predicate CarriesState(desc: SeriesDesc, st: Float, step: int, times: seq<int>, counters: seq<Float>,
      points: seq<Point>, final: Float)
  {
    && |points| == |times| && |counters| == |times| + 1
    && counters[0] == st && counters[|times|] == final
    && forall k | 0 <= k < |times| ::
         && points[k].timestamp == times[k] / 1_000_000
         && (counters[k + 1], points[k].value) == desc.wave(counters[k], times[k], step)
  }

  /** What one series emits over [start, end) and the state it ends in, from its description alone. */
  ghost predicate EmittedBy(
      desc: SeriesDesc, st: Float, start: int, end: int, step: int, points: seq<Point>, final: Float)
    requires step > 0
  {
    exists times, counters ::
      SampleTimes(desc, start, end, step, times) && CarriesState(desc, st, step, times, counters, points, final)
  }

  lemma HasSampleSplits(desc: SeriesDesc, start: int, end: int, step: int, ts: int)
    requires step > 0 && start < end
    ensures HasSample(desc, start, end, step, ts) <==>
              (ts == start && Emits(desc, start, step)) || HasSample(desc, start + step, end, step, ts)
  {
    RemainderShift(ts - start, step);
    if start <= ts < start + step {
      QuotientIs(ts - start, step, 0);
    }
  }

  lemma SampleTimesSplit(desc: SeriesDesc, start: int, end: int, step: int, later: seq<int>)
    requires step > 0 && start < end && SampleTimes(desc, start + step, end, step, later)
    ensures SampleTimes(desc, start, end, step, if Emits(desc, start, step) then [start] + later else later)
  {
    var times := if Emits(desc, start, step) then [start] + later else later;
    forall ts
      ensures ts in times <==> HasSample(desc, start, end, step, ts)
    {
      HasSampleSplits(desc, start, end, step, ts);
    }
    forall j | 0 <= j < |later|
      ensures start < later[j]
    {
      assert later[j] in later;
      assert HasSample(desc, start + step, end, step, later[j]);
    }
  }

  lemma CarriesStateOn(desc: SeriesDesc, st: Float, ts: int, step: int, times: seq<int>, counters: seq<Float>,
      points: seq<Point>, final: Float)
    requires CarriesState(desc, desc.wave(st, ts, step).0, step, times, counters, points, final)
    ensures CarriesState(desc, st, step, [ts] + times, [st] + counters,
                         [Point(ts / 1_000_000, desc.wave(st, ts, step).1)] + points, final)
  {
  }

  lemma EmittedByOneMore(desc: SeriesDesc, st: Float, start: int, end: int, step: int, points: seq<Point>, final: Float)
    requires step > 0 && start < end
    requires EmittedBy(desc, if Emits(desc, start, step) then desc.wave(st, start, step).0 else st,
                       start + step, end, step, points, final)
    ensures EmittedBy(desc, st, start, end, step,
                      if Emits(desc, start, step) then [Point(start / 1_000_000, desc.wave(st, start, step).1)] + points
                      else points,
                      final)
  {
    var st' := if Emits(desc, start, step) then desc.wave(st, start, step).0 else st;
    var times, counters :| SampleTimes(desc, start + step, end, step, times)
                           && CarriesState(desc, st', step, times, counters, points, final);
    SampleTimesSplit(desc, start, end, step, times);
    if Emits(desc, start, step) {
      CarriesStateOn(desc, st, start, step, times, counters, points, final);
    }
  }

  lemma EmittedNowhere(desc: SeriesDesc, st: Float, start: int, end: int, step: int)
    requires step > 0 && start >= end
    ensures EmittedBy(desc, st, start, end, step, [], st)
  {
    var none: seq<int> := [];
    assert SampleTimes(desc, start, end, step, none) && CarriesState(desc, st, step, none, [st], [], st);
  }

  /** The walk of a description emits what the description says. */
  lemma {:induction false} WalkEmits(desc: SeriesDesc, st: Float, start: int, end: int, step: int)
    requires step > 0
    ensures EmittedBy(desc, st, start, end, step, Points(WalkOf(desc, step), st, start, end, step),
                      StateAfter(WalkOf(desc, step), st, start, end, step))
    decreases end - start
  {
    var walk := WalkOf(desc, step);
    if start >= end {
      EmittedNowhere(desc, st, start, end, step);
    } else {
      var st' := if Emits(desc, start, step) then desc.wave(st, start, step).0 else st;
      WalkEmits(desc, st', start + step, end, step);
      EmittedByOneMore(desc, st, start, end, step,
                       Points(walk, st', start + step, end, step), StateAfter(walk, st', start + step, end, step));
    }
  }

  /** `states` is the generator's state slice; only entry i changes. */
  method AdvanceSeries(desc: SeriesDesc, states: array<Float>, i: nat, start: int, end: int, step: int)
    returns (points: seq<Point>)
    requires step > 0 && i < states.Length
    modifies states
    ensures EmittedBy(desc, old(states[i]), start, end, step, points, states[i])
    ensures points == Points(WalkOf(desc, step), old(states[i]), start, end, step)
    ensures states[..] == old(states[..])[i := StateAfter(WalkOf(desc, step), old(states[i]), start, end, step)]
  {
    ghost var walk, st := WalkOf(desc, step), states[i];
    WalkEmits(desc, st, start, end, step);
    points := [];
    var ts := start;
    while ts < end
      invariant points + Points(walk, states[i], ts, end, step) == Points(walk, st, start, end, step)
      invariant StateAfter(walk, states[i], ts, end, step) == StateAfter(walk, st, start, end, step)
      invariant states[..] == old(states[..])[i := states[i]]
      decreases end - ts
    {
      if !Emits(desc, ts, step) {
        ts := ts + step;
        continue;
      }
      var (counter, value) := desc.wave(states[i], ts, step);
      Regroup(points, Point(UnixMilli(ts), value), Points(walk, counter, ts + step, end, step));
      states[i] := counter;
      points := points + [Point(UnixMilli(ts), value)];
      ts := ts + step;
    }
    assert points + [] == points;
    assert points == Points(walk, st, start, end, step) && states[i] == StateAfter(walk, st, start, end, step);
  }

  lemma Regroup(done: seq<Point>, next: Point, rest: seq<Point>)
    ensures done + ([next] + rest) == (done + [next]) + rest
  {
  }

  /** Cutting a walk at a grid time and carrying the state over changes nothing. */
  lemma {:induction false} WalkSplit(walk: Walk, st: Float, start: int, k: nat, end: int, step: int)
    requires step > 0 && start + k * step <= end
    ensures var mid := start + k * step;
            var carried := StateAfter(walk, st, start, mid, step);
            && Points(walk, st, start, end, step)
                == Points(walk, st, start, mid, step) + Points(walk, carried, mid, end, step)
            && StateAfter(walk, st, start, end, step) == StateAfter(walk, carried, mid, end, step)
    decreases k
  {
    if k > 0 {
      GridFirst(k, step);
      var mid := start + k * step;
      assert (start + step) + (k - 1) * step == mid;
      var st' := if walk.emits(start) then walk.wave(st, start).0 else st;
      WalkSplit(walk, st', start + step, k - 1, end, step);
    }
  }

  lemma GridFirst(k: nat, step: int)
    requires k > 0 && step > 0
    ensures k * step >= step && k * step == step + (k - 1) * step
  {
  }

  ghost predicate Increasing(pts: seq<Point>) {
    forall i, j | 0 <= i < j < |pts| :: pts[i].timestamp < pts[j].timestamp
  }

  /** With a step of at least a millisecond the samples of one series carry strictly increasing
      timestamps, so no two of them collide in storage. */
  lemma {:induction false} TimestampsIncrease(walk: Walk, st: Float, start: int, end: int, step: int)
    requires step >= NANOS_PER_MILLI
    ensures forall p | p in Points(walk, st, start, end, step) :: UnixMilli(start) <= p.timestamp
    ensures Increasing(Points(walk, st, start, end, step))
    decreases end - start
  {
    if start < end {
      assert UnixMilli(start) < UnixMilli(start + step);
      var st' := if walk.emits(start) then walk.wave(st, start).0 else st;
      TimestampsIncrease(walk, st', start + step, end, step);
      var rest := Points(walk, st', start + step, end, step);
      assert forall j | 0 <= j < |rest| :: rest[j] in rest;
    }
  }

  /** Below a millisecond they can collide: two neighbouring grid times round to one timestamp. */
  lemma SubMillisecondStepsCollide(walk: Walk, st: Float, start: int, end: int, step: int)
    requires 0 < step < NANOS_PER_MILLI && start % NANOS_PER_MILLI == 0 && start + step < end
    requires walk.emits(start) && walk.emits(start + step)
    ensures var pts := Points(walk, st, start, end, step); |pts| >= 2 && pts[0].timestamp == pts[1].timestamp
  {
    var st' := walk.wave(st, start).0;
    var rest := Points(walk, st', start + step, end, step);
    assert |rest| >= 1 && rest[0].timestamp == UnixMilli(start + step);
  }

  /** Timestamps strictly increase in every walk over every window exactly when the step is at least a
      millisecond. */
  lemma TimestampsIncreaseExactly(step: int)
    requires step > 0
    ensures (forall walk: Walk, st: Float, start: int, end: int :: Increasing(Points(walk, st, start, end, step)))
            <==> step >= NANOS_PER_MILLI
  {
    if step >= NANOS_PER_MILLI {
      forall walk: Walk, st: Float, start: int, end: int
        ensures Increasing(Points(walk, st, start, end, step))
      {
        TimestampsIncrease(walk, st, start, end, step);
      }
    } else {
      var everywhere := Walk(_ => true, (st: Float, ts: int) => (st, st));
      SubMillisecondStepsCollide(everywhere, 0.0, 0, 2 * step, step);
      assert !Increasing(Points(everywhere, 0.0, 0, 2 * step, step));
    }
  }

  // ---- One request per batch ------------------------------------------------------------

  /** The samples of one series in one request. */
  ghost function Tagged(i: nat, pts: seq<Point>): multiset<Sample> {
    if pts == [] then multiset{} else multiset{Sample(i, pts[0])} + Tagged(i, pts[1..])
  }

  /** Every sample a request carries. */
  ghost function Contents(req: seq<TimeSeries>): multiset<Sample> {
    if req == [] then multiset{}
    else Contents(req[..|req| - 1]) + Tagged(req[|req| - 1].series, req[|req| - 1].samples)
  }

  /** The number of samples a request carries. */
  ghost function SampleCount(req: seq<TimeSeries>): nat {
    if req == [] then 0 else SampleCount(req[..|req| - 1]) + |req[|req| - 1].samples|
  }

  lemma {:induction false} SampleCountIsSize(req: seq<TimeSeries>)
    ensures SampleCount(req) == |Contents(req)|
  {
    if req != [] {
      SampleCountIsSize(req[..|req| - 1]);
      TaggedSize(req[|req| - 1].series, req[|req| - 1].samples);
    }
  }

  /** The states carried over a window, one per series. */
  function Carried(walks: seq<Walk>, states: seq<Float>, start: int, end: int, step: int): seq<Float>
    requires step > 0 && |walks| == |states|
  {
    seq(|walks|, i requires 0 <= i < |walks| => StateAfter(walks[i], states[i], start, end, step))
  }

  /** One row per series: its samples over [start, end), possibly none. */
  function Rows(walks: seq<Walk>, states: seq<Float>, start: int, end: int, step: int): seq<TimeSeries>
    requires step > 0 && |walks| == |states|
  {
    seq(|walks|, i requires 0 <= i < |walks| => TimeSeries(i, Points(walks[i], states[i], start, end, step)))
  }

  function NonEmpty(rows: seq<TimeSeries>): seq<TimeSeries> {
    if rows == [] then []
    else
      var front, last := NonEmpty(rows[..|rows| - 1]), rows[|rows| - 1];
      if last.samples == [] then front else front + [last]
  }

  lemma NonEmptyAppend(rows: seq<TimeSeries>, row: TimeSeries)
    ensures NonEmpty(rows + [row]) == if row.samples == [] then NonEmpty(rows) else NonEmpty(rows) + [row]
  {
    assert (rows + [row])[..|rows|] == rows;
  }

  /** The request of one batch: series without a sample are left out. */
  function Request(walks: seq<Walk>, states: seq<Float>, start: int, end: int, step: int): seq<TimeSeries>
    requires step > 0 && |walks| == |states|
  {
    NonEmpty(Rows(walks, states, start, end, step))
  }

  ghost function SumOf<T>(part: nat -> multiset<T>, n: nat): multiset<T> {
    if n == 0 then multiset{} else SumOf(part, n - 1) + part(n - 1)
  }

  /** The samples of series i over [start, end). */
  ghost function SeriesBag(walks: seq<Walk>, states: seq<Float>, start: int, end: int, step: int)
      : nat -> multiset<Sample>
    requires step > 0 && |walks| == |states|
  {
    (i: nat) => if i < |walks| then Tagged(i, Points(walks[i], states[i], start, end, step)) else multiset{}
  }

  /** Every sample of the window [start, end). */
  ghost function Bag(walks: seq<Walk>, states: seq<Float>, start: int, end: int, step: int): multiset<Sample>
    requires step > 0 && |walks| == |states|
  {
    SumOf(SeriesBag(walks, states, start, end, step), |walks|)
  }

  /** The body of the generator's loop: one request, and every state advanced in place. */
  method BuildBatch(descs: seq<SeriesDesc>, states: array<Float>, start: int, end: int, step: int)
    returns (req: seq<TimeSeries>, samples: nat)
    requires step > 0 && |descs| == states.Length
    modifies states
    ensures req == Request(WalksOf(descs, step), old(states[..]), start, end, step)
    ensures states[..] == Carried(WalksOf(descs, step), old(states[..]), start, end, step)
    ensures samples == SampleCount(req)
  {
    ghost var walks, before := WalksOf(descs, step), states[..];
    ghost var rows := Rows(walks, before, start, end, step);
    req, samples := [], 0;
    var i := 0;
    while i < |descs|
      invariant 0 <= i <= |descs|
      invariant req == NonEmpty(rows[..i])
      invariant samples == SampleCount(req)
      invariant states[..] == Carried(walks, before, start, end, step)[..i] + before[i..]
    {
      assert states[i] == states[..][i] == before[i];
      TakeOne(Carried(walks, before, start, end, step), before, i);
      TakeRow(rows, i);
      SampleCountAppend(req, rows[i]);
      var points := AdvanceSeries(descs[i], states, i, start, end, step);
      assert rows[i] == TimeSeries(i, points);
      if points != [] {
        req := req + [TimeSeries(i, points)];
        samples := samples + |points|;
      }
      i := i + 1;
    }
    assert rows[..|descs|] == rows;
  }

  lemma TakeRow(rows: seq<TimeSeries>, i: nat)
    requires i < |rows|
    ensures NonEmpty(rows[..i + 1]) == if rows[i].samples == [] then NonEmpty(rows[..i])
                                       else NonEmpty(rows[..i]) + [rows[i]]
  {
    assert rows[..i + 1] == rows[..i] + [rows[i]];
    NonEmptyAppend(rows[..i], rows[i]);
  }

  lemma SampleCountAppend(req: seq<TimeSeries>, ts: TimeSeries)
    ensures SampleCount(req + [ts]) == SampleCount(req) + |ts.samples|
  {
    assert (req + [ts])[..|req|] == req;
  }

  lemma TakeOne<T>(done: seq<T>, todo: seq<T>, i: nat)
    requires i < |done| == |todo|
    ensures (done[..i] + todo[i..])[i := done[i]] == done[..i + 1] + todo[i + 1..]
  {
  }

  lemma ContentsAppend(req: seq<TimeSeries>, ts: TimeSeries)
    ensures Contents(req + [ts]) == Contents(req) + Tagged(ts.series, ts.samples)
  {
    assert (req + [ts])[..|req|] == req;
  }

  lemma {:induction false} TaggedSize(i: nat, pts: seq<Point>)
    ensures |Tagged(i, pts)| == |pts|
  {
    if pts != [] {
      TaggedSize(i, pts[1..]);
    }
  }

  lemma RequestCarriesTheBag(walks: seq<Walk>, states: seq<Float>, start: int, end: int, step: int)
    requires step > 0 && |walks| == |states|
    ensures var req := Request(walks, states, start, end, step);
            Contents(req) == Bag(walks, states, start, end, step) && (req == [] <==> |Contents(req)| == 0)
  {
    RequestIsSum(Rows(walks, states, start, end, step), SeriesBag(walks, states, start, end, step));
    EmptyRequest(Rows(walks, states, start, end, step));
    SampleCountIsSize(Request(walks, states, start, end, step));
  }

  /** Part i is what row i carries. */
  ghost predicate PartsOfRows(rows: seq<TimeSeries>, part: nat -> multiset<Sample>) {
    forall i: nat | i < |rows| :: part(i) == Tagged(rows[i].series, rows[i].samples)
  }

  lemma PartsOfFront(front: seq<TimeSeries>, last: TimeSeries, part: nat -> multiset<Sample>)
    requires PartsOfRows(front + [last], part)
    ensures PartsOfRows(front, part) && part(|front|) == Tagged(last.series, last.samples)
  {
    assert forall i: nat | i < |front| :: (front + [last])[i] == front[i];
    assert (front + [last])[|front|] == last;
  }

  lemma SumOfLast<T>(part: nat -> multiset<T>, n: nat)
    ensures SumOf(part, n + 1) == SumOf(part, n) + part(n)
  {
  }

  lemma {:induction false} RequestIsSum(rows: seq<TimeSeries>, part: nat -> multiset<Sample>)
    requires PartsOfRows(rows, part)
    ensures Contents(NonEmpty(rows)) == SumOf(part, |rows|)
  {
    if rows != [] {
      var front, last := rows[..|rows| - 1], rows[|rows| - 1];
      assert rows == front + [last];
      PartsOfFront(front, last, part);
      RequestIsSum(front, part);
      NonEmptyContents(front, last);
      SumOfLast(part, |front|);
    }
  }

  lemma NonEmptyContents(rows: seq<TimeSeries>, row: TimeSeries)
    ensures Contents(NonEmpty(rows + [row])) == Contents(NonEmpty(rows)) + Tagged(row.series, row.samples)
  {
    NonEmptyAppend(rows, row);
    ContentsAppend(NonEmpty(rows), row);
  }

  lemma {:induction false} EmptyRequest(rows: seq<TimeSeries>)
    ensures NonEmpty(rows) == [] <==> SampleCount(NonEmpty(rows)) == 0
  {
    if rows != [] {
      var front, last := rows[..|rows| - 1], rows[|rows| - 1];
      EmptyRequest(front);
      assert rows == front + [last];
      NonEmptyAppend(front, last);
      SampleCountAppend(NonEmpty(front), last);
    }
  }

  lemma {:induction false} TaggedConcat(i: nat, a: seq<Point>, b: seq<Point>)
    ensures Tagged(i, a + b) == Tagged(i, a) + Tagged(i, b)
  {
    if a == [] {
      assert a + b == b;
    } else {
      assert (a + b)[1..] == a[1..] + b;
      TaggedConcat(i, a[1..], b);
    }
  }

  lemma {:induction false} TaggedCounts(i: nat, pts: seq<Point>, j: nat, p: Point)
    ensures Tagged(i, pts)[Sample(j, p)] == if i == j then multiset(pts)[p] else 0
  {
    if pts != [] {
      assert pts == [pts[0]] + pts[1..];
      TaggedCounts(i, pts[1..], j, p);
    }
  }

  lemma {:induction false} SumOfSums<T>(whole: nat -> multiset<T>, left: nat -> multiset<T>, right: nat -> multiset<T>,
      n: nat)
    requires forall i: nat | i < n :: whole(i) == left(i) + right(i)
    ensures SumOf(whole, n) == SumOf(left, n) + SumOf(right, n)
  {
    if n > 0 {
      SumOfSums(whole, left, right, n - 1);
    }
  }

  lemma {:induction false} SumOfNothing<T>(part: nat -> multiset<T>, n: nat)
    requires forall i: nat | i < n :: part(i) == multiset{}
    ensures SumOf(part, n) == multiset{}
  {
    if n > 0 {
      SumOfNothing(part, n - 1);
    }
  }

  /** When only part i holds x, the sum holds it exactly as often as part i. */
  lemma {:induction false} SumOfCounts<T>(part: nat -> multiset<T>, n: nat, i: nat, x: T)
    requires forall j: nat | j != i :: part(j)[x] == 0
    ensures SumOf(part, n)[x] == if i < n then part(i)[x] else 0
  {
    if n > 0 {
      SumOfCounts(part, n - 1, i, x);
    }
  }

  lemma SeriesBagSplit(walks: seq<Walk>, states: seq<Float>, start: int, k: nat, end: int, step: int, i: nat)
    requires step > 0 && |walks| == |states| && start + k * step <= end && i < |walks|
    ensures var mid := start + k * step;
            SeriesBag(walks, states, start, end, step)(i)
            == SeriesBag(walks, states, start, mid, step)(i)
                + SeriesBag(walks, Carried(walks, states, start, mid, step), mid, end, step)(i)
  {
    var mid := start + k * step;
    var carried := StateAfter(walks[i], states[i], start, mid, step);
    WalkSplit(walks[i], states[i], start, k, end, step);
    TaggedConcat(i, Points(walks[i], states[i], start, mid, step), Points(walks[i], carried, mid, end, step));
  }

  /** The samples of a window are those of its first part followed by those of its second part
      generated from the carried states. */
  lemma BagSplit(walks: seq<Walk>, states: seq<Float>, start: int, k: nat, end: int, step: int)
    requires step > 0 && |walks| == |states| && start + k * step <= end
    ensures var mid := start + k * step;
            Bag(walks, states, start, end, step)
            == Bag(walks, states, start, mid, step)
                + Bag(walks, Carried(walks, states, start, mid, step), mid, end, step)
  {
    var mid := start + k * step;
    var later := Carried(walks, states, start, mid, step);
    var whole := SeriesBag(walks, states, start, end, step);
    var left, right := SeriesBag(walks, states, start, mid, step), SeriesBag(walks, later, mid, end, step);
    forall i: nat | i < |walks|
      ensures whole(i) == left(i) + right(i)
    {
      SeriesBagSplit(walks, states, start, k, end, step, i);
    }
    SumOfSums(whole, left, right, |walks|);
  }

  lemma EmptyWindow(walks: seq<Walk>, states: seq<Float>, start: int, end: int, step: int)
    requires step > 0 && |walks| == |states| && end <= start
    ensures Bag(walks, states, start, end, step) == multiset{}
  {
    SumOfNothing(SeriesBag(walks, states, start, end, step), |walks|);
  }

  /** How often a sample occurs in a window: as often as in the walk of its own series. */
  lemma BagCounts(walks: seq<Walk>, states: seq<Float>, start: int, end: int, step: int, i: nat, p: Point)
    requires step > 0 && |walks| == |states|
    ensures Bag(walks, states, start, end, step)[Sample(i, p)]
            == if i < |walks| then multiset(Points(walks[i], states[i], start, end, step))[p] else 0
  {
    var part := SeriesBag(walks, states, start, end, step);
    forall j: nat
      ensures part(j)[Sample(i, p)]
              == if j < |walks| && i == j then multiset(Points(walks[i], states[i], start, end, step))[p] else 0
    {
      if j < |walks| {
        TaggedCounts(j, Points(walks[j], states[j], start, end, step), i, p);
      }
    }
    SumOfCounts(part, |walks|, i, Sample(i, p));
  }

  // ---- The whole window in batches ------------------------------------------------------

  /** Where the batch that starts at batchStart ends. */
  function BatchEnd(batchStart: int, end: int, step: int, pointsPerBatch: int): int {
    Min(batchStart + pointsPerBatch * step, end)
  }

  /** Generating one batch and then the rest of the window is generating the window. */
  lemma BatchSplit(walks: seq<Walk>, states: seq<Float>, batchStart: int, end: int, step: int, pointsPerBatch: int)
    requires step > 0 && |walks| == |states| && pointsPerBatch >= 1 && batchStart < end
    ensures var batchEnd := BatchEnd(batchStart, end, step, pointsPerBatch);
            Bag(walks, states, batchStart, end, step)
            == Contents(Request(walks, states, batchStart, batchEnd, step))
               + Bag(walks, Carried(walks, states, batchStart, batchEnd, step), batchEnd, end, step)
  {
    var batchEnd := BatchEnd(batchStart, end, step, pointsPerBatch);
    RequestCarriesTheBag(walks, states, batchStart, batchEnd, step);
    if batchEnd == end {
      EmptyWindow(walks, Carried(walks, states, batchStart, batchEnd, step), batchEnd, end, step);
    } else {
      BagSplit(walks, states, batchStart, pointsPerBatch, end, step);
    }
  }

  /** The requests sent for [batchStart, end) in order, skipping batches without a sample. */
  function Batches(walks: seq<Walk>, states: seq<Float>, batchStart: int, end: int, step: int, pointsPerBatch: int)
      : seq<seq<TimeSeries>>
    requires step > 0 && |walks| == |states| && pointsPerBatch >= 1
    decreases end - batchStart
  {
    if batchStart >= end then []
    else
      GridFirst(pointsPerBatch, step);
      var batchEnd := BatchEnd(batchStart, end, step, pointsPerBatch);
      var req := Request(walks, states, batchStart, batchEnd, step);
      var carried := Carried(walks, states, batchStart, batchEnd, step);
      var rest := Batches(walks, carried, batchEnd, end, step, pointsPerBatch);
      if req == [] then rest else [req] + rest
  }

  /** Advancing the states over one batch and then over the rest is advancing them over the window. */
  lemma CarriedOn(walks: seq<Walk>, states: seq<Float>, batchStart: int, end: int, step: int, pointsPerBatch: int)
    requires step > 0 && |walks| == |states| && pointsPerBatch >= 1 && batchStart < end
    ensures var batchEnd := BatchEnd(batchStart, end, step, pointsPerBatch);
            Carried(walks, Carried(walks, states, batchStart, batchEnd, step), batchEnd, end, step)
            == Carried(walks, states, batchStart, end, step)
  {
    forall i | 0 <= i < |walks| {
      BatchWalk(walks[i], states[i], batchStart, end, step, pointsPerBatch);
    }
  }

  lemma CarriedNowhere(walks: seq<Walk>, states: seq<Float>, start: int, end: int, step: int)
    requires step > 0 && |walks| == |states| && start >= end
    ensures Carried(walks, states, start, end, step) == states
  {
  }

  /** The whole generator loop without its channel: the requests in sending order. */
  method GenerateWindow(descs: seq<SeriesDesc>, states: array<Float>, start: int, end: int, step: int,
      pointsPerBatch: int)
    returns (requests: seq<seq<TimeSeries>>)
    requires step > 0 && |descs| == states.Length && pointsPerBatch >= 1
    modifies states
    ensures requests == Batches(WalksOf(descs, step), old(states[..]), start, end, step, pointsPerBatch)
    ensures states[..] == Carried(WalksOf(descs, step), old(states[..]), start, end, step)
    ensures forall i | 0 <= i < |descs| ::
              EmittedBy(descs[i], old(states[..])[i], start, end, step, SeriesIn(requests, i), states[..][i])
  {
    requests := [];
    ghost var walks := WalksOf(descs, step);
    var batchStart := start;
    while batchStart < end
      invariant requests + Batches(walks, states[..], batchStart, end, step, pointsPerBatch)
                == Batches(walks, old(states[..]), start, end, step, pointsPerBatch)
      invariant Carried(walks, states[..], batchStart, end, step) == Carried(walks, old(states[..]), start, end, step)
      decreases end - batchStart
    {
      GridFirst(pointsPerBatch, step);
      CarriedOn(walks, states[..], batchStart, end, step, pointsPerBatch);
      var batchEnd := BatchEnd(batchStart, end, step, pointsPerBatch);
      var req, samples := BuildBatch(descs, states, batchStart, batchEnd, step);
      ghost var rest := Batches(walks, states[..], batchEnd, end, step, pointsPerBatch);
      if req != [] {
        assert requests + ([req] + rest) == (requests + [req]) + rest;
        requests := requests + [req];
      }
      batchStart := batchEnd;
    }
    CarriedNowhere(walks, states[..], batchStart, end, step);
    assert requests + [] == requests;
    forall i | 0 <= i < |descs|
      ensures EmittedBy(descs[i], old(states[..])[i], start, end, step, SeriesIn(requests, i), states[..][i])
    {
      WindowEmits(descs, old(states[..]), start, end, step, pointsPerBatch, i);
    }
  }

  /** Over the whole window, in batches of any size, each series emits what its description says. */
  lemma WindowEmits(
      descs: seq<SeriesDesc>, states: seq<Float>, start: int, end: int, step: int, pointsPerBatch: int, i: nat)
    requires step > 0 && |descs| == |states| && pointsPerBatch >= 1 && i < |descs|
    ensures EmittedBy(descs[i], states[i], start, end, step,
                      SeriesIn(Batches(WalksOf(descs, step), states, start, end, step, pointsPerBatch), i),
                      Carried(WalksOf(descs, step), states, start, end, step)[i])
  {
    BatchingIsInvisible(WalksOf(descs, step), states, start, end, step, pointsPerBatch, i);
    WalkEmits(descs[i], states[i], start, end, step);
  }

  /** One batch of one series, whether or not it is the last. */
  lemma BatchWalk(walk: Walk, st: Float, batchStart: int, end: int, step: int, pointsPerBatch: int)
    requires step > 0 && pointsPerBatch >= 1 && batchStart < end
    ensures var batchEnd := BatchEnd(batchStart, end, step, pointsPerBatch);
            var carried := StateAfter(walk, st, batchStart, batchEnd, step);
            && Points(walk, st, batchStart, end, step)
                == Points(walk, st, batchStart, batchEnd, step) + Points(walk, carried, batchEnd, end, step)
            && StateAfter(walk, st, batchStart, end, step) == StateAfter(walk, carried, batchEnd, end, step)
  {
    if BatchEnd(batchStart, end, step, pointsPerBatch) != end {
      WalkSplit(walk, st, batchStart, pointsPerBatch, end, step);
    }
  }

  /** The points of series i in a request, and over a list of requests in sending order. */
  ghost function PointsOf(req: seq<TimeSeries>, i: nat): seq<Point> {
    if req == [] then []
    else PointsOf(req[..|req| - 1], i) + if req[|req| - 1].series == i then req[|req| - 1].samples else []
  }

  ghost function SeriesIn(reqs: seq<seq<TimeSeries>>, i: nat): seq<Point> {
    if reqs == [] then [] else PointsOf(reqs[0], i) + SeriesIn(reqs[1..], i)
  }

  lemma RequestSeries(walks: seq<Walk>, states: seq<Float>, start: int, end: int, step: int, i: nat)
    requires step > 0 && i < |walks| == |states|
    ensures PointsOf(Request(walks, states, start, end, step), i) == Points(walks[i], states[i], start, end, step)
  {
    RowSeries(Rows(walks, states, start, end, step), i);
  }

  lemma {:induction false} RowSeries(rows: seq<TimeSeries>, i: nat)
    requires forall j | 0 <= j < |rows| :: rows[j].series == j
    ensures PointsOf(NonEmpty(rows), i) == if i < |rows| then rows[i].samples else []
  {
    if rows != [] {
      var front, last := rows[..|rows| - 1], rows[|rows| - 1];
      RowSeries(front, i);
      if last.samples != [] {
        PointsOfAppend(NonEmpty(front), last, i);
      }
    }
  }

  lemma PointsOfAppend(req: seq<TimeSeries>, ts: TimeSeries, i: nat)
    ensures PointsOf(req + [ts], i) == PointsOf(req, i) + if ts.series == i then ts.samples else []
  {
    assert (req + [ts])[..|req|] == req;
  }

  /** The batch size is invisible: whatever it is, the sequence sent for each series is that of
      one walk over the whole window. */
  lemma {:induction false} BatchingIsInvisible(walks: seq<Walk>, states: seq<Float>, batchStart: int, end: int,
      step: int, pointsPerBatch: int, i: nat)
    requires step > 0 && |walks| == |states| && pointsPerBatch >= 1 && i < |walks|
    ensures SeriesIn(Batches(walks, states, batchStart, end, step, pointsPerBatch), i)
            == Points(walks[i], states[i], batchStart, end, step)
    decreases end - batchStart
  {
    if batchStart < end {
      GridFirst(pointsPerBatch, step);
      var batchEnd := BatchEnd(batchStart, end, step, pointsPerBatch);
      var carried := Carried(walks, states, batchStart, batchEnd, step);
      RequestSeries(walks, states, batchStart, batchEnd, step, i);
      BatchingIsInvisible(walks, carried, batchEnd, end, step, pointsPerBatch, i);
      BatchWalk(walks[i], states[i], batchStart, end, step, pointsPerBatch);
      var req := Request(walks, states, batchStart, batchEnd, step);
      var rest := Batches(walks, carried, batchEnd, end, step, pointsPerBatch);
      if req != [] {
        assert ([req] + rest)[1..] == rest;
      }
    }
  }

  // ---- The shape of the requests --------------------------------------------------------

  /** A request lists, in series order, exactly the rows that have a sample. */
  ghost predicate ListsNonEmpty(req: seq<TimeSeries>, rows: seq<TimeSeries>) {
    && (forall j, k | 0 <= j < k < |req| :: req[j].series < req[k].series)
    && (forall row :: row in req <==> row in rows && row.samples != [])
  }

  lemma {:induction false} NonEmptyLists(rows: seq<TimeSeries>)
    requires forall j | 0 <= j < |rows| :: rows[j].series == j
    ensures ListsNonEmpty(NonEmpty(rows), rows)
  {
    if rows != [] {
      var front, last := rows[..|rows| - 1], rows[|rows| - 1];
      assert rows == front + [last];
      NonEmptyLists(front);
      NonEmptyAppend(front, last);
      forall j | 0 <= j < |NonEmpty(front)|
        ensures NonEmpty(front)[j].series < last.series
      {
        assert NonEmpty(front)[j] in front;
      }
    }
  }

  /** One batch's request: the series with a sample, in order, each with the samples of its walk. */
  lemma RequestShape(walks: seq<Walk>, states: seq<Float>, start: int, end: int, step: int)
    requires step > 0 && |walks| == |states|
    ensures var req := Request(walks, states, start, end, step);
            && (forall j, k | 0 <= j < k < |req| :: req[j].series < req[k].series)
            && (forall i: nat, pts :: TimeSeries(i, pts) in req <==>
                  i < |walks| && pts == Points(walks[i], states[i], start, end, step) && pts != [])
  {
    var rows := Rows(walks, states, start, end, step);
    NonEmptyLists(rows);
    forall i: nat, pts
      ensures TimeSeries(i, pts) in rows <==> i < |walks| && pts == Points(walks[i], states[i], start, end, step)
    {
      assert i < |walks| ==> rows[i] == TimeSeries(i, Points(walks[i], states[i], start, end, step));
    }
  }

  lemma {:induction false} PointsFit(walk: Walk, st: Float, start: int, end: int, step: int, n: nat)
    requires step > 0 && end <= start + n * step
    ensures |Points(walk, st, start, end, step)| <= n
    decreases n
  {
    if start < end {
      if n > 0 {
        GridFirst(n, step);
      }
      PointsFit(walk, if walk.emits(start) then walk.wave(st, start).0 else st, start + step, end, step, n - 1);
    }
  }

  /** Batches are as small as configured: no series has more than pointsPerBatch samples in a request. */
  lemma {:induction false} BatchesAreSmall(
      walks: seq<Walk>, states: seq<Float>, batchStart: int, end: int, step: int, pointsPerBatch: int)
    requires step > 0 && |walks| == |states| && pointsPerBatch >= 1
    ensures forall r, row | r in Batches(walks, states, batchStart, end, step, pointsPerBatch) && row in r ::
              0 < |row.samples| <= pointsPerBatch
    decreases end - batchStart
  {
    if batchStart < end {
      GridFirst(pointsPerBatch, step);
      var batchEnd := BatchEnd(batchStart, end, step, pointsPerBatch);
      var req := Request(walks, states, batchStart, batchEnd, step);
      BatchesAreSmall(walks, Carried(walks, states, batchStart, batchEnd, step), batchEnd, end, step, pointsPerBatch);
      RequestShape(walks, states, batchStart, batchEnd, step);
      forall row | row in req
        ensures 0 < |row.samples| <= pointsPerBatch
      {
        assert TimeSeries(row.series, row.samples) in req;
        PointsFit(walks[row.series], states[row.series], batchStart, batchEnd, step, pointsPerBatch);
      }
    }
  }
}
