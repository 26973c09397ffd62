/** A subquery evaluated locally: its window, its grid of absolute step multiples, and why one
    evaluation over the range-mode window serves every outer time. Times are milliseconds. */
module Subquery {
  import opened GoBasics
  import opened Division
  import opened Sorting
  import opened RangeChunks
  import opened ChunkMerge

  datatype Token = NoToken | StartToken | EndToken

  /** The plan node without its child. A step or default interval of 0 means "not given". */
  datatype SubqueryPlan = SubqueryPlan(
    range: int,
    step: int,
    offset: int,
    timestamp: Option<int>,
    token: Token,
    maxPoints: int,
    defaultInterval: int)

  datatype Window = Window(start: int, end: int, step: int)

  const DEFAULT_EVALUATION_INTERVAL := 60_000

  const BAD_RANGE := BadData("subquery range must be greater than zero")
  const TOO_MANY_POINTS := BadData("subquery would evaluate too many inner points per series")
  const NOT_A_VECTOR := ExecutionError("subquery child must evaluate to vector")

  function ResolveStartEnd(token: Token, params: EvalParams): Option<int> {
    match token
    case NoToken => None
    case StartToken => Some(if params.mode == RangeMode then params.start else params.evaluationTime)
    case EndToken => Some(if params.mode == RangeMode then params.end else params.evaluationTime)
  }

  /** The step written down, else the planner's interval, else the built-in minute. */
  function EffectiveStep(p: SubqueryPlan): (step: int)
    ensures step > 0
  {
    if p.step > 0 then p.step else if p.defaultInterval > 0 then p.defaultInterval else DEFAULT_EVALUATION_INTERVAL
  }

  function WindowEnd(p: SubqueryPlan, params: EvalParams): int {
    var end := if params.mode == RangeMode then params.end else params.evaluationTime;
    (if p.timestamp.Some? then p.timestamp.value
     else if ResolveStartEnd(p.token, params).Some? then ResolveStartEnd(p.token, params).value else end) - p.offset
  }

  /** The exclusive lower bound: in range mode without `@`, that of the first outer time. */
  function WindowStart(p: SubqueryPlan, params: EvalParams): int {
    if params.mode == RangeMode && p.timestamp.None? && p.token.NoToken? then params.start - p.offset - p.range
    else WindowEnd(p, params) - p.range
  }

  function AlignStepStart(windowStart: int, step: int): int {
    if step <= 0 then windowStart
    else
      var aligned := GoDiv(windowStart, step) * step;
      if aligned <= windowStart then aligned + step else aligned
  }

  function GridOf(w: Window): seq<int>
    requires w.step > 0
  {
    Grid(w.start, w.end, w.step)
  }

  function ExecutionWindow(p: SubqueryPlan, params: EvalParams): (r: Result<Window, EvalError>)
    ensures r.Ok? ==> r.value.step > 0
  {
    if p.range <= 0 then Err(BAD_RANGE)
    else Ok(Window(AlignStepStart(WindowStart(p, params), EffectiveStep(p)), WindowEnd(p, params), EffectiveStep(p)))
  }

  function CountEvaluationPoints(start: int, end: int, step: int): int {
    if step <= 0 || end < start then 0 else GoDiv(end - start, step) + 1
  }

  /** Truncating division and the one-step correction find the first multiple of the step that lies
      strictly after the window start, on both sides of the epoch. */
  lemma AlignIsFirstMultiple(windowStart: int, step: int)
    requires step > 0
    ensures var first := AlignStepStart(windowStart, step);
            && first % step == 0 && windowStart < first <= windowStart + step
            && forall m | m % step == 0 && windowStart < m :: first <= m
  {
    var first := AlignStepStart(windowStart, step);
    AlignIsNear(windowStart, step);
    forall m | m % step == 0 && windowStart < m
      ensures first <= m
    {
      MultiplesAreApart(first - step, m, step);
    }
  }

  lemma AlignIsNear(windowStart: int, step: int)
    requires step > 0
    ensures var first := AlignStepStart(windowStart, step);
            first % step == 0 && (first - step) % step == 0 && first - step <= windowStart < first
  {
    var first, q := AlignStepStart(windowStart, step), GoDiv(windowStart, step);
    var k := if q * step <= windowStart then q + 1 else q;
    assert (q + 1) * step == q * step + step;
    if windowStart < 0 {
      var n, r := (-windowStart) / step, (-windowStart) % step;
      assert -windowStart == n * step + r;
      assert q * step == -(n * step);
    } else {
      assert windowStart == q * step + windowStart % step;
    }
    QuotientIs(first, step, k);
    RemainderShift(first, step);
  }

  lemma {:induction false} GridFromMultiple(start: int, end: int, step: int, m: int)
    requires step > 0 && start % step == 0
    ensures m in Grid(start, end, step) <==> m % step == 0 && start <= m <= end
    decreases end - start
  {
    if start <= end {
      RemainderShift(start + step, step);
      GridFromMultiple(start + step, end, step, m);
      if m % step == 0 && start < m {
        MultiplesAreApart(start, m, step);
      }
    }
  }

  lemma CountIsGridSize(w: Window)
    requires w.step > 0
    ensures CountEvaluationPoints(w.start, w.end, w.step) == |GridOf(w)|
  {
    GridIsArithmetic(w.start, w.end, w.step);
  }

  lemma WindowHoldsMultiples(p: SubqueryPlan, params: EvalParams)
    requires p.range > 0
    ensures var w := ExecutionWindow(p, params).value;
            && (forall m :: m in GridOf(w) <==> m % w.step == 0 && WindowStart(p, params) < m <= w.end)
            && CountEvaluationPoints(w.start, w.end, w.step) == |GridOf(w)|
  {
    var w := ExecutionWindow(p, params).value;
    AlignIsFirstMultiple(WindowStart(p, params), w.step);
    CountIsGridSize(w);
    forall m
      ensures m in GridOf(w) <==> m % w.step == 0 && WindowStart(p, params) < m <= w.end
    {
      GridFromMultiple(w.start, w.end, w.step, m);
    }
  }

  /** The window from the fields of the plan. Its step is the one written down, else the planner's
      interval, else a minute. It ends at the literal `@` time, else at the bound the token names, else at
      the mode's own end, less the offset. It is left-open, as long as the range; in range mode without
      `@` it also covers the range before the first outer time. */
  lemma WindowFromFields(p: SubqueryPlan, params: EvalParams)
    requires p.range > 0
    ensures var step := if p.step > 0 then p.step else if p.defaultInterval > 0 then p.defaultInterval else 60_000;
            var first := if params.mode == RangeMode then params.start else params.evaluationTime;
            var last := if params.mode == RangeMode then params.end else params.evaluationTime;
            var at := if p.timestamp.Some? then p.timestamp.value else if p.token.StartToken? then first else last;
            var open := if p.timestamp.Some? || !p.token.NoToken? then at else first;
            var r := ExecutionWindow(p, params);
            && r.Ok? && r.value.step == step && r.value.end == at - p.offset
            && WindowStart(p, params) == open - p.offset - p.range
            && r.value.start % step == 0
            && open - p.offset - p.range < r.value.start <= open - p.offset - p.range + step
  {
    AlignIsFirstMultiple(WindowStart(p, params), EffectiveStep(p));
  }

  /** For every plan and parameters: the evaluation times are exactly the multiples of that step in that
      left-open window, and the point count checked against the limit is the number of evaluations. */
  lemma GridIsTheMultiples(p: SubqueryPlan, params: EvalParams, m: int)
    requires p.range > 0
    ensures var step := if p.step > 0 then p.step else if p.defaultInterval > 0 then p.defaultInterval else 60_000;
            var first := if params.mode == RangeMode then params.start else params.evaluationTime;
            var last := if params.mode == RangeMode then params.end else params.evaluationTime;
            var at := if p.timestamp.Some? then p.timestamp.value else if p.token.StartToken? then first else last;
            var open := if p.timestamp.Some? || !p.token.NoToken? then at else first;
            var w := ExecutionWindow(p, params).value;
            && (m in GridOf(w) <==> m % step == 0 && open - p.offset - p.range < m <= at - p.offset)
            && CountEvaluationPoints(w.start, w.end, w.step) == |GridOf(w)|
  {
    WindowFromFields(p, params);
    WindowHoldsMultiples(p, params);
  }

  /** Without a positive range there is no window. */
  lemma NoRangeNoWindow(p: SubqueryPlan, params: EvalParams)
    requires p.range <= 0
    ensures ExecutionWindow(p, params) == Err(BadData("subquery range must be greater than zero"))
  {
  }

  // ---- Evaluating the child on the grid -------------------------------------------------

  datatype VectorSample = VectorSample(key: string, timestamp: int, value: Value)

  datatype ChildValue = VectorValue(samples: seq<VectorSample>) | NotAVector

  /** The child evaluated at one time in instant mode. */
  type Child = int -> Result<ChildValue, EvalError>

  function AddSample(t: Table, s: VectorSample): Table {
    t[s.key := Lookup(t, s.key) + [RangePoint(s.timestamp, s.value)]]
  }

  function AddVector(t: Table, samples: seq<VectorSample>): Table {
    if samples == [] then t else AddSample(AddVector(t, samples[..|samples| - 1]), samples[|samples| - 1])
  }

  /** The points collected per labelset over a grid, or the first error. */
  function Collect(child: Child, grid: seq<int>): Result<Table, EvalError> {
    if grid == [] then Ok(map[])
    else
      var before := Collect(child, grid[..|grid| - 1]);
      if before.Err? then before
      else match child(grid[|grid| - 1])
        case Err(e) => Err(InContext("evaluating local subquery child", e))
        case Ok(NotAVector) => Err(NOT_A_VECTOR)
        case Ok(VectorValue(samples)) => Ok(AddVector(before.value, samples))
  }

  predicate NotLater(a: RangePoint, b: RangePoint) {
    a.timestamp <= b.timestamp
  }

  function InTimeOrder(t: Table): Table {
    map key | key in t :: Sort(NotLater, t[key])
  }

  /** The evaluation of a prepared window. */
  ghost function Run(maxPoints: int, child: Child, w: Window): Result<Matrix, EvalError>
    requires w.step > 0
  {
    if maxPoints > 0 && CountEvaluationPoints(w.start, w.end, w.step) > maxPoints then Err(TOO_MANY_POINTS)
    else match Collect(child, GridOf(w))
      case Err(e) => Err(e)
      case Ok(t) => Ok(MatrixOf(InTimeOrder(t)))
  }

  ghost function Executed(p: SubqueryPlan, child: Child, params: EvalParams): Result<Matrix, EvalError> {
    match ExecutionWindow(p, params)
    case Err(e) => Err(InContext("preparing local subquery window", e))
    case Ok(w) => Run(p.maxPoints, child, w)
  }

  lemma CollectOne(child: Child, grid: seq<int>, ts: int)
    ensures Collect(child, grid + [ts])
            == if Collect(child, grid).Err? then Collect(child, grid)
               else match child(ts)
                 case Err(e) => Err(InContext("evaluating local subquery child", e))
                 case Ok(NotAVector) => Err(NOT_A_VECTOR)
                 case Ok(VectorValue(samples)) => Ok(AddVector(Collect(child, grid).value, samples))
  {
    assert (grid + [ts])[..|grid|] == grid;
  }

  lemma {:induction false} CollectStaysFailed(child: Child, done: seq<int>, todo: seq<int>)
    requires Collect(child, done).Err?
    ensures Collect(child, done + todo) == Collect(child, done)
    decreases |todo|
  {
    if todo == [] {
      assert done + todo == done;
    } else {
      var front := todo[..|todo| - 1];
      CollectStaysFailed(child, done, front);
      assert done + todo == (done + front) + [todo[|todo| - 1]];
      CollectOne(child, done + front, todo[|todo| - 1]);
    }
  }

  /** One child vector appended to the per-labelset lists; `order` keeps the labelsets seen. */
  method AppendVector(t: Table, order: seq<string>, samples: seq<VectorSample>) returns (t': Table, order': seq<string>)
    requires multiset(order) == multiset(t.Keys)
    ensures t' == AddVector(t, samples) && multiset(order') == multiset(t'.Keys)
  {
    t', order' := t, order;
    for i := 0 to |samples|
      invariant t' == AddVector(t, samples[..i])
      invariant multiset(order') == multiset(t'.Keys)
    {
      assert samples[..i + 1][..i] == samples[..i];
      var s := samples[i];
      if s.key !in t' {
        order' := order' + [s.key];
      }
      ghost var keys := t'.Keys;
      t' := t'[s.key := Lookup(t', s.key) + [RangePoint(s.timestamp, s.value)]];
      assert t'.Keys == keys + {s.key};
    }
    assert samples[..|samples|] == samples;
  }

  /** The loop over the grid. */
  method CollectOver(child: Child, start: int, end: int, step: int)
    returns (r: Result<Table, EvalError>, order: seq<string>)
    requires step > 0
    ensures r == Collect(child, Grid(start, end, step))
    ensures r.Ok? ==> multiset(order) == multiset(r.value.Keys)
  {
    var seriesByKey: Table := map[];
    order := [];
    ghost var done := [];
    var ts := start;
    while ts <= end
      invariant Grid(start, end, step) == done + Grid(ts, end, step)
      invariant Collect(child, done) == Ok(seriesByKey)
      invariant multiset(order) == multiset(seriesByKey.Keys)
      decreases end - ts
    {
      ghost var rest := Grid(ts + step, end, step);
      assert done + ([ts] + rest) == (done + [ts]) + rest;
      CollectOne(child, done, ts);
      var value := child(ts);
      if value.Err? {
        CollectStaysFailed(child, done + [ts], rest);
        return Err(InContext("evaluating local subquery child", value.error)), [];
      }
      if !value.value.VectorValue? {
        CollectStaysFailed(child, done + [ts], rest);
        return Err(NOT_A_VECTOR), [];
      }
      seriesByKey, order := AppendVector(seriesByKey, order, value.value.samples);
      done := done + [ts];
      ts := ts + step;
    }
    assert done + [] == done;
    return Ok(seriesByKey), order;
  }

  lemma NextRow(keys: seq<string>, i: nat, t: Table)
    requires i < |keys| && forall key | key in keys :: key in t
    ensures Rows(keys[..i + 1], InTimeOrder(t))
        == Rows(keys[..i], InTimeOrder(t)) + [RangeSeries(keys[i], Sort(NotLater, t[keys[i]]))]
  {
    assert keys[i] in keys;
  }

  /** The collected series by key, each in time order. */
  method Listing(t: Table, order: seq<string>) returns (m: Matrix)
    requires multiset(order) == multiset(t.Keys)
    ensures m == Rows(SortedKeys(t.Keys), InTimeOrder(t))
  {
    SortedOrder(order, t);
    var keys := Sort(StringLe, order);
    m := [];
    for i := 0 to |keys|
      invariant m == Rows(keys[..i], InTimeOrder(t))
    {
      NextRow(keys, i, t);
      assert keys[i] in keys;
      m := m + [RangeSeries(keys[i], Sort(NotLater, t[keys[i]]))];
    }
    assert keys[..|keys|] == keys;
  }

  method Execute(p: SubqueryPlan, child: Child, params: EvalParams) returns (r: Result<Matrix, EvalError>)
    ensures r == Executed(p, child, params)
  {
    var window := ExecutionWindow(p, params);
    if window.Err? {
      return Err(InContext("preparing local subquery window", window.error));
    }
    var Window(start, end, step) := window.value;
    if p.maxPoints > 0 && CountEvaluationPoints(start, end, step) > p.maxPoints {
      return Err(TOO_MANY_POINTS);
    }
    var collected, order := CollectOver(child, start, end, step);
    if collected.Err? {
      return Err(collected.error);
    }
    var result := Listing(collected.value, order);
    assert InTimeOrder(collected.value).Keys == collected.value.Keys;
    return Ok(result);
  }

  lemma SortedOrder(order: seq<string>, t: Table)
    requires multiset(order) == multiset(t.Keys)
    ensures Sort(StringLe, order) == SortedKeys(t.Keys)
    ensures forall key | key in Sort(StringLe, order) :: key in t
  {
    StringLeIsTotalOrder();
    SortIsCanonical(StringLe, order, SetToSeq(t.Keys));
    SortSorts(StringLe, order);
    DistinctKeys(Sort(StringLe, order), t.Keys);
  }

  // ---- Once over the range, cut per outer time ------------------------------------------

  /** An instant vector has one sample per labelset, stamped with the evaluation time. */
  ghost predicate WellTimed(child: Child) {
    forall ts :: WellTimedAt(child, ts)
  }

  ghost predicate WellTimedAt(child: Child, ts: int) {
    child(ts).Ok? && child(ts).value.VectorValue? ==> WellTimedVector(child(ts).value.samples, ts)
  }

  ghost predicate WellTimedVector(samples: seq<VectorSample>, ts: int) {
    && (forall i | 0 <= i < |samples| :: samples[i].timestamp == ts)
    && (forall i, j | 0 <= i < j < |samples| :: samples[i].key != samples[j].key)
  }

  function ValuesOf(samples: seq<VectorSample>): map<string, Value> {
    if samples == [] then map[]
    else ValuesOf(samples[..|samples| - 1])[samples[|samples| - 1].key := samples[|samples| - 1].value]
  }

  ghost function Meaning(child: Child): Denotation {
    (ts: int) => if child(ts).Ok? && child(ts).value.VectorValue? then ValuesOf(child(ts).value.samples) else map[]
  }

  lemma {:induction false} ValuesAbsent(samples: seq<VectorSample>, key: string)
    requires forall i | 0 <= i < |samples| :: samples[i].key != key
    ensures key !in ValuesOf(samples)
  {
    if samples != [] {
      ValuesAbsent(samples[..|samples| - 1], key);
    }
  }

  function PointAt(values: map<string, Value>, ts: int, key: string): seq<RangePoint> {
    if key in values then [RangePoint(ts, values[key])] else []
  }

  lemma {:induction false} AddVectorLookup(t: Table, samples: seq<VectorSample>, ts: int, key: string)
    requires WellTimedVector(samples, ts)
    ensures Lookup(AddVector(t, samples), key) == Lookup(t, key) + PointAt(ValuesOf(samples), ts, key)
  {
    if samples != [] {
      var front, last := samples[..|samples| - 1], samples[|samples| - 1];
      AddVectorLookup(t, front, ts, key);
      ValuesAbsent(front, last.key);
    }
  }

  /** Every evaluation on the grid succeeded. */
  ghost predicate AllVectors(child: Child, grid: seq<int>) {
    forall ts | ts in grid :: child(ts).Ok? && child(ts).value.VectorValue?
  }

  lemma {:induction false} CollectSucceeds(child: Child, grid: seq<int>)
    ensures Collect(child, grid).Ok? <==> AllVectors(child, grid)
  {
    if grid != [] {
      var front, last := grid[..|grid| - 1], grid[|grid| - 1];
      CollectSucceeds(child, front);
      assert grid == front + [last];
      CollectOne(child, front, last);
    }
  }

  /** The first time of the grid at which the child fails, or answers no vector, decides the error. */
  lemma FirstFailureDecides(child: Child, before: seq<int>, ts: int, after: seq<int>)
    requires AllVectors(child, before) && !(child(ts).Ok? && child(ts).value.VectorValue?)
    ensures Collect(child, before + [ts] + after)
            == Err(if child(ts).Err? then InContext("evaluating local subquery child", child(ts).error)
                   else ExecutionError("subquery child must evaluate to vector"))
  {
    CollectSucceeds(child, before);
    CollectOne(child, before, ts);
    CollectStaysFailed(child, before + [ts], after);
  }

  /** What a subquery answers, by the order of its checks: the range, the limit, then the child at each
      time of the grid. */
  lemma OutcomeOf(p: SubqueryPlan, child: Child, params: EvalParams)
    ensures p.range <= 0 ==>
              Executed(p, child, params)
              == Err(InContext("preparing local subquery window", BadData("subquery range must be greater than zero")))
    ensures p.range > 0 ==>
              var grid := GridOf(ExecutionWindow(p, params).value);
              var r := Executed(p, child, params);
              if p.maxPoints > 0 && |grid| > p.maxPoints
              then r == Err(BadData("subquery would evaluate too many inner points per series"))
              else
                && (r.Ok? <==> AllVectors(child, grid))
                && (forall before, ts, after | grid == before + [ts] + after && AllVectors(child, before) ::
                      && (child(ts).Err? ==> r == Err(InContext("evaluating local subquery child", child(ts).error)))
                      && (child(ts).Ok? && !child(ts).value.VectorValue? ==>
                            r == Err(ExecutionError("subquery child must evaluate to vector"))))
  {
    if p.range > 0 {
      var w := ExecutionWindow(p, params).value;
      CountIsGridSize(w);
      RunMeans(p.maxPoints, child, w);
      forall before, ts, after | GridOf(w) == before + [ts] + after && AllVectors(child, before)
                                 && !(child(ts).Ok? && child(ts).value.VectorValue?)
        ensures Collect(child, GridOf(w))
                == Err(if child(ts).Err? then InContext("evaluating local subquery child", child(ts).error)
                       else ExecutionError("subquery child must evaluate to vector"))
      {
        FirstFailureDecides(child, before, ts, after);
      }
    }
  }

  /** Whatever the child stamps its samples with, each listed series is in time order and holds exactly
      the points collected for its labelset; the labelsets are listed in order, each once. */
  lemma ListingIsOrdered(t: Table)
    ensures SortedByKey(MatrixOf(InTimeOrder(t))) && TableOf(MatrixOf(InTimeOrder(t))).Keys == t.Keys
    ensures forall key | key in t ::
              var values := Lookup(TableOf(MatrixOf(InTimeOrder(t))), key);
              TimeOrdered(values) && multiset(values) == multiset(t[key])
  {
    MatrixOfTable(InTimeOrder(t));
    forall key | key in t
      ensures TimeOrdered(Sort(NotLater, t[key])) && multiset(Sort(NotLater, t[key])) == multiset(t[key])
    {
      SortSorts(NotLater, t[key]);
    }
  }

  lemma SamplesAppend(f: Denotation, grid: seq<int>, ts: int, key: string)
    ensures Samples(f, grid + [ts], key) == Samples(f, grid, key) + PointAt(f(ts), ts, key)
  {
    SamplesConcat(f, grid, [ts], key);
    assert Samples(f, [ts], key) == PointAt(f(ts), ts, key) + Samples(f, [ts][1..], key);
  }

  lemma {:induction false} CollectLookup(child: Child, grid: seq<int>, key: string)
    requires WellTimed(child) && Collect(child, grid).Ok?
    ensures Lookup(Collect(child, grid).value, key) == Samples(Meaning(child), grid, key)
  {
    if grid != [] {
      var front, last := grid[..|grid| - 1], grid[|grid| - 1];
      assert grid == front + [last];
      CollectOne(child, front, last);
      CollectLookup(child, front, key);
      var samples := child(last).value.samples;
      assert WellTimedAt(child, last);
      AddVectorLookup(Collect(child, front).value, samples, last, key);
      SamplesAppend(Meaning(child), front, last, key);
    }
  }

  lemma {:induction false} SortedStays(xs: seq<RangePoint>)
    requires TimeOrdered(xs)
    ensures Sort(NotLater, xs) == xs
  {
    if xs != [] {
      SortedStays(xs[1..]);
      assert xs == [xs[0]] + xs[1..];
    }
  }

  ghost predicate TimeOrdered(xs: seq<RangePoint>) {
    forall i, j | 0 <= i < j < |xs| :: xs[i].timestamp <= xs[j].timestamp
  }

  lemma {:induction false} SamplesAreInOrder(f: Denotation, grid: seq<int>, key: string)
    requires Increasing(grid)
    ensures TimeOrdered(Samples(f, grid, key))
  {
    if grid != [] {
      var rest := Samples(f, grid[1..], key);
      SamplesAreInOrder(f, grid[1..], key);
      SamplesLieOnTheGrid(f, grid[1..], key);
      forall j | 0 <= j < |rest|
        ensures grid[0] <= rest[j].timestamp
      {
        assert rest[j] in rest;
        assert grid == [grid[0]] + grid[1..];
        InOrder([grid[0]], grid[1..], grid[0], rest[j].timestamp);
      }
    }
  }

  /** A matrix result is a denotation on a grid, labelset by labelset. */
  ghost predicate MeansOn(r: Result<Matrix, EvalError>, f: Denotation, grid: seq<int>) {
    r.Ok? && forall key :: Lookup(TableOf(r.value), key) == Samples(f, grid, key)
  }

  lemma CollectMeans(child: Child, grid: seq<int>)
    requires WellTimed(child) && Collect(child, grid).Ok? && Increasing(grid)
    ensures MeansOn(Ok(MatrixOf(InTimeOrder(Collect(child, grid).value))), Meaning(child), grid)
  {
    var t := Collect(child, grid).value;
    MatrixOfTable(InTimeOrder(t));
    forall key
      ensures Lookup(InTimeOrder(t), key) == Samples(Meaning(child), grid, key)
    {
      CollectLookup(child, grid, key);
      SamplesAreInOrder(Meaning(child), grid, key);
      SortedStays(Samples(Meaning(child), grid, key));
    }
  }

  /** An evaluation succeeds when the limit allows the grid and the child answers on all of it;
      then it is the child's meaning on the grid. */
  lemma RunMeans(maxPoints: int, child: Child, w: Window)
    requires w.step > 0
    ensures Run(maxPoints, child, w).Ok?
        <==> (maxPoints > 0 ==> |GridOf(w)| <= maxPoints) && AllVectors(child, GridOf(w))
    ensures WellTimed(child) && Run(maxPoints, child, w).Ok?
        ==> MeansOn(Run(maxPoints, child, w), Meaning(child), GridOf(w))
  {
    CountIsGridSize(w);
    CollectSucceeds(child, GridOf(w));
    GridIncreases(w.start, w.end, w.step);
    if WellTimed(child) && Run(maxPoints, child, w).Ok? {
      CollectMeans(child, GridOf(w));
    }
  }

  /** The times of a list in (lo, hi]. */
  function Between(grid: seq<int>, lo: int, hi: int): seq<int> {
    if grid == [] then []
    else if lo < grid[0] <= hi then [grid[0]] + Between(grid[1..], lo, hi)
    else Between(grid[1..], lo, hi)
  }

  /** The points of a list in (lo, hi]. */
  function Cut(points: seq<RangePoint>, lo: int, hi: int): seq<RangePoint> {
    if points == [] then []
    else if lo < points[0].timestamp <= hi then [points[0]] + Cut(points[1..], lo, hi) else Cut(points[1..], lo, hi)
  }

  lemma {:induction false} CutSamples(f: Denotation, grid: seq<int>, lo: int, hi: int, key: string)
    ensures Samples(f, Between(grid, lo, hi), key) == Cut(Samples(f, grid, key), lo, hi)
  {
    if grid != [] {
      CutSamples(f, grid[1..], lo, hi, key);
    }
  }

  lemma {:induction false} BetweenIsPart(grid: seq<int>, lo: int, hi: int)
    ensures |Between(grid, lo, hi)| <= |grid| && forall t | t in Between(grid, lo, hi) :: t in grid
  {
    if grid != [] {
      BetweenIsPart(grid[1..], lo, hi);
    }
  }

  /** Cutting the grid of a wider window gives the grid of the narrower one. */
  lemma {:induction false} CutGrid(start: int, end: int, step: int, lo: int, hi: int)
    requires step > 0 && start % step == 0 && start <= AlignStepStart(lo, step) && hi <= end
    ensures Between(Grid(start, end, step), lo, hi) == Grid(AlignStepStart(lo, step), hi, step)
    decreases end - start
  {
    AlignIsFirstMultiple(lo, step);
    if start <= lo {
      MultiplesAreApart(start, AlignStepStart(lo, step), step);
      RemainderShift(start + step, step);
      if start <= end {
        CutGrid(start + step, end, step, lo, hi);
      }
    } else {
      CutAbove(start, end, step, lo, hi);
    }
  }

  lemma {:induction false} CutAbove(start: int, end: int, step: int, lo: int, hi: int)
    requires step > 0 && lo < start && hi <= end
    ensures Between(Grid(start, end, step), lo, hi) == Grid(start, hi, step)
    decreases end - start
  {
    if start <= end {
      CutAbove(start + step, end, step, lo, hi);
    }
  }

  lemma AlignIsMonotone(a: int, b: int, step: int)
    requires step > 0 && a <= b
    ensures AlignStepStart(a, step) <= AlignStepStart(b, step)
  {
    AlignIsFirstMultiple(a, step);
    AlignIsFirstMultiple(b, step);
  }

  /** The instant window at an outer time is the range-mode window cut to it. */
  lemma InstantGridIsCut(p: SubqueryPlan, params: EvalParams, t: int)
    requires p.range > 0 && p.timestamp.None? && p.token.NoToken?
    requires params.mode == RangeMode && params.start <= t <= params.end
    ensures GridOf(ExecutionWindow(p, InstantAt(t)).value)
            == Between(GridOf(ExecutionWindow(p, params).value), t - p.offset - p.range, t - p.offset)
  {
    var lo, step := params.start - p.offset - p.range, EffectiveStep(p);
    AlignIsMonotone(lo, t - p.offset - p.range, step);
    AlignIsFirstMultiple(lo, step);
    CutGrid(AlignStepStart(lo, step), params.end - p.offset, step, t - p.offset - p.range, t - p.offset);
  }

  /** `part` succeeds like `whole` and holds, under each labelset, the points of `whole` in (lo, hi]. */
  ghost predicate IsCutOf(part: Result<Matrix, EvalError>, whole: Result<Matrix, EvalError>, lo: int, hi: int) {
    part.Ok? && whole.Ok? && forall key :: IsCutAt(part.value, whole.value, lo, hi, key)
  }

  ghost predicate IsCutAt(part: Matrix, whole: Matrix, lo: int, hi: int, key: string) {
    Lookup(TableOf(part), key) == Cut(Lookup(TableOf(whole), key), lo, hi)
  }

  lemma CutMeans(whole: Result<Matrix, EvalError>, part: Result<Matrix, EvalError>, f: Denotation, grid: seq<int>,
      lo: int, hi: int)
    requires MeansOn(whole, f, grid) && MeansOn(part, f, Between(grid, lo, hi))
    ensures IsCutOf(part, whole, lo, hi)
  {
    forall key
      ensures IsCutAt(part.value, whole.value, lo, hi, key)
    {
      CutSamples(f, grid, lo, hi, key);
    }
  }

  /** A window whose grid is part of another's: its evaluation is that part of the other's. */
  lemma RunCut(maxPoints: int, child: Child, w: Window, part: Window, lo: int, hi: int,
      whole: Result<Matrix, EvalError>, cut: Result<Matrix, EvalError>)
    requires WellTimed(child) && w.step > 0 && part.step > 0 && GridOf(part) == Between(GridOf(w), lo, hi)
    requires whole == Run(maxPoints, child, w) && cut == Run(maxPoints, child, part) && whole.Ok?
    ensures IsCutOf(cut, whole, lo, hi)
  {
    BetweenIsPart(GridOf(w), lo, hi);
    RunMeans(maxPoints, child, w);
    RunMeans(maxPoints, child, part);
    CutMeans(whole, cut, Meaning(child), GridOf(w), lo, hi);
  }

  /** (lo, hi] is the window of outer time t. */
  predicate IsOuterWindow(p: SubqueryPlan, params: EvalParams, t: int, lo: int, hi: int) {
    && p.timestamp.None? && p.token.NoToken?
    && params.mode == RangeMode && params.start <= t <= params.end
    && lo == t - p.offset - p.range && hi == t - p.offset
  }

  /** The two evaluations at work, that of the whole range and that of one outer time. */
  lemma RunsOf(p: SubqueryPlan, child: Child, params: EvalParams, t: int, lo: int, hi: int)
    returns (w: Window, part: Window, whole: Result<Matrix, EvalError>, cut: Result<Matrix, EvalError>)
    requires IsOuterWindow(p, params, t, lo, hi) && Executed(p, child, params).Ok?
    ensures w.step > 0 && part.step > 0 && GridOf(part) == Between(GridOf(w), lo, hi)
    ensures whole == Executed(p, child, params) == Run(p.maxPoints, child, w)
    ensures cut == Executed(p, child, InstantAt(t)) == Run(p.maxPoints, child, part)
  {
    w, part := ExecutionWindow(p, params).value, ExecutionWindow(p, InstantAt(t)).value;
    InstantGridIsCut(p, params, t);
    whole, cut := Executed(p, child, params), Executed(p, child, InstantAt(t));
  }

  /** Without `@`, one evaluation over the range-mode window, cut to (t-offset-range, t-offset], is
      the instant evaluation at t, for every outer t of the range: the same points under the same
      labelsets, and no new error. */
  lemma OnceServesEveryOuterTime(p: SubqueryPlan, child: Child, params: EvalParams, t: int, lo: int, hi: int)
    requires IsOuterWindow(p, params, t, lo, hi)
    requires WellTimed(child) && Executed(p, child, params).Ok?
    ensures IsCutOf(Executed(p, child, InstantAt(t)), Executed(p, child, params), lo, hi)
  {
    var w, part, whole, cut := RunsOf(p, child, params, t, lo, hi);
    RunCut(p.maxPoints, child, w, part, lo, hi, whole, cut);
  }

  /** With a literal `@` the outer times do not matter at all. */
  lemma LiteralTimeIsFixed(p: SubqueryPlan, child: Child, params: EvalParams, params': EvalParams)
    requires p.timestamp.Some?
    ensures Executed(p, child, params) == Executed(p, child, params')
  {
    assert ExecutionWindow(p, params) == ExecutionWindow(p, params');
  }

  /** `@ start()` and `@ end()` in range mode mean the instant subquery at that bound of the range. */
  lemma TokenMeansABound(p: SubqueryPlan, child: Child, params: EvalParams)
    requires params.mode == RangeMode && p.timestamp.None? && !p.token.NoToken?
    ensures Executed(p, child, params)
            == Executed(p.(token := NoToken), child,
                InstantAt(if p.token.StartToken? then params.start else params.end))
  {
    var at := InstantAt(if p.token.StartToken? then params.start else params.end);
    assert ExecutionWindow(p, params) == ExecutionWindow(p.(token := NoToken), at);
  }
}
