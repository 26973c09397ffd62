/** The repeated-expression memo: plans that thread it through one request, and when evaluating
    with it equals evaluating without it. */
module MemoPlan {
  import opened GoBasics
  import opened KeyEncoding
  import opened RangeChunks
  import Subquery

  function UnixMilliOrZero(t: int): int {
    if t == ZERO_TIME then 0 else t
  }

  function ModeName(mode: EvalMode): string {
    match mode
    case InstantMode => "instant"
    case RangeMode => "range"
  }

  function MemoKey(expr: string, p: EvalParams): string {
    var withMode := expr + ['|'] + ("mode=" + ModeName(p.mode));
    var withEval := WithInt(withMode, "eval=", UnixMilliOrZero(p.evaluationTime));
    var withStart := WithInt(withEval, "start=", UnixMilliOrZero(p.start));
    WithInt(WithInt(withStart, "end=", UnixMilliOrZero(p.end)), "step=", p.step)
  }

  /** Parameters the key cannot tell apart. */
  predicate SameKeyFields(p: EvalParams, q: EvalParams) {
    && p.mode == q.mode && p.step == q.step
    && UnixMilliOrZero(p.evaluationTime) == UnixMilliOrZero(q.evaluationTime)
    && UnixMilliOrZero(p.start) == UnixMilliOrZero(q.start)
    && UnixMilliOrZero(p.end) == UnixMilliOrZero(q.end)
  }

  /** Whatever characters the expressions contain, two keys are equal exactly when the expressions
      are and every parameter is, up to the zero time counting as the epoch. */
  lemma KeysCollideExactly(e: string, p: EvalParams, f: string, q: EvalParams)
    ensures MemoKey(e, p) == MemoKey(f, q) <==> e == f && SameKeyFields(p, q)
  {
    var e0, f0 := e + ['|'] + ("mode=" + ModeName(p.mode)), f + ['|'] + ("mode=" + ModeName(q.mode));
    var e1, f1 := WithInt(e0, "eval=", UnixMilliOrZero(p.evaluationTime)),
                  WithInt(f0, "eval=", UnixMilliOrZero(q.evaluationTime));
    var e2, f2 := WithInt(e1, "start=", UnixMilliOrZero(p.start)), WithInt(f1, "start=", UnixMilliOrZero(q.start));
    var e3, f3 := WithInt(e2, "end=", UnixMilliOrZero(p.end)), WithInt(f2, "end=", UnixMilliOrZero(q.end));
    WithIntSplits(e3, p.step, f3, q.step, "step=");
    WithIntSplits(e2, UnixMilliOrZero(p.end), f2, UnixMilliOrZero(q.end), "end=");
    WithIntSplits(e1, UnixMilliOrZero(p.start), f1, UnixMilliOrZero(q.start), "start=");
    WithIntSplits(e0, UnixMilliOrZero(p.evaluationTime), f0, UnixMilliOrZero(q.evaluationTime), "eval=");
    ModesSplit(e, p.mode, f, q.mode);
  }

  lemma ModesSplit(e: string, m: EvalMode, f: string, n: EvalMode)
    ensures e + ['|'] + ("mode=" + ModeName(m)) == f + ['|'] + ("mode=" + ModeName(n)) <==> e == f && m == n
  {
    SplitAtLast(e, "mode=" + ModeName(m), f, "mode=" + ModeName(n), '|');
    if m != n {
      assert |"mode=" + ModeName(m)| != |"mode=" + ModeName(n)|;
    }
  }

  // ---- Plans ----------------------------------------------------------------------------

  type Value = real

  type Outcome = Result<Value, EvalError>

  type Memo = map<string, Value>

  /** How a plan evaluates its child more than once: in chunks of a range, at each step of a range,
      on the grid of a subquery, or in any other way. */
  datatype Sweeper =
    | Chunks(chunkPoints: int)
    | Steps
    | SubqueryGrid(subquery: Subquery.SubqueryPlan)
    | AnyTimes(times: EvalParams -> seq<EvalParams>)

  function Instants(grid: seq<int>): seq<EvalParams> {
    seq(|grid|, i requires 0 <= i < |grid| => InstantAt(grid[i]))
  }

  /** The parameters at which a sweep evaluates its child, in order; none if it fails before. */
  function TimesOf(sweeper: Sweeper, params: EvalParams): seq<EvalParams> {
    match sweeper
    case Chunks(chunkPoints) =>
      if params.mode != RangeMode then [params]
      else if params.step > 0 && chunkPoints > 0 then Split(params, chunkPoints) else []
    case Steps =>
      if params.mode != RangeMode then [params]
      else if params.step > 0 then Instants(Grid(params.start, params.end, params.step)) else []
    case SubqueryGrid(p) =>
      (match Subquery.ExecutionWindow(p, params)
       case Err(_) => []
       case Ok(w) =>
         if p.maxPoints > 0 && Subquery.CountEvaluationPoints(w.start, w.end, w.step) > p.maxPoints then []
         else Instants(Subquery.GridOf(w)))
    case AnyTimes(times) => times(params)
  }

  /** A plan tree as far as the memo is concerned: leaves, memo nodes, nodes over two children, and
      nodes that sweep a child and fold its values. */
  datatype Plan =
    | Leaf(run: EvalParams -> Outcome)
    | Memoized(expr: string, inner: Plan)
    | Combine(op: (Value, Value) -> Outcome, lhs: Plan, rhs: Plan)
    | Sweep(sweeper: Sweeper, fold: (EvalParams, seq<Value>) -> Outcome, child: Plan)

  /** Executing a plan with the request's memo: the outcome, and the memo afterwards. */
  function Run(plan: Plan, params: EvalParams, memo: Memo): (Outcome, Memo)
    decreases plan, 0
  {
    match plan
    case Leaf(run) => (run(params), memo)
    case Memoized(expr, inner) =>
      var key := MemoKey(expr, params);
      if key in memo then (Ok(memo[key]), memo)
      else
        var (value, memo') := Run(inner, params, memo);
        (value, if value.Ok? then memo'[key := value.value] else memo')
    case Combine(op, lhs, rhs) =>
      var (l, memo') := Run(lhs, params, memo);
      if l.Err? then (l, memo')
      else
        var (r, memo'') := Run(rhs, params, memo');
        (if r.Err? then r else op(l.value, r.value), memo'')
    case Sweep(sweeper, fold, child) =>
      var (values, memo') := RunAll(child, TimesOf(sweeper, params), memo);
      (if values.Err? then Err(values.error) else fold(params, values.value), memo')
  }

  function RunAll(plan: Plan, at: seq<EvalParams>, memo: Memo): (Result<seq<Value>, EvalError>, Memo)
    decreases plan, |at|
  {
    if at == [] then (Ok([]), memo)
    else
      var (first, memo') := Run(plan, at[0], memo);
      if first.Err? then (Err(first.error), memo')
      else
        var (rest, memo'') := RunAll(plan, at[1..], memo');
        (if rest.Err? then rest else Ok([first.value] + rest.value), memo'')
  }

  /** The same without memo nodes. */
  function Plain(plan: Plan, params: EvalParams): Outcome
    decreases plan, 0
  {
    match plan
    case Leaf(run) => run(params)
    case Memoized(_, inner) => Plain(inner, params)
    case Combine(op, lhs, rhs) =>
      var l := Plain(lhs, params);
      if l.Err? then l
      else
        var r := Plain(rhs, params);
        if r.Err? then r else op(l.value, r.value)
    case Sweep(sweeper, fold, child) =>
      var values := PlainAll(child, TimesOf(sweeper, params));
      if values.Err? then Err(values.error) else fold(params, values.value)
  }

  function PlainAll(plan: Plan, at: seq<EvalParams>): Result<seq<Value>, EvalError>
    decreases plan, |at|
  {
    if at == [] then Ok([])
    else
      var first := Plain(plan, at[0]);
      if first.Err? then Err(first.error)
      else
        var rest := PlainAll(plan, at[1..]);
        if rest.Err? then rest else Ok([first.value] + rest.value)
  }

  /** One request: a fresh memo, and the error under its context. */
  function Evaluate(plan: Plan, params: EvalParams): Outcome {
    var value := Run(plan, params, map[]).0;
    if value.Err? then Err(InContext("evaluating query plan", value.error)) else value
  }

  // ---- Faithfulness ---------------------------------------------------------------------

  /** What an expression text denotes. */
  type Denotations = (string, EvalParams) -> Outcome

  /** Equal text means equal denotation: at every parameter at which a memo node is executed, its
      inner plan computes what its text denotes there. */
  ghost predicate TextDetermines(plan: Plan, d: Denotations, params: EvalParams) {
    match plan
    case Leaf(_) => true
    case Memoized(expr, inner) => Plain(inner, params) == d(expr, params) && TextDetermines(inner, d, params)
    case Combine(_, lhs, rhs) => TextDetermines(lhs, d, params) && TextDetermines(rhs, d, params)
    case Sweep(sweeper, _, child) =>
      forall i | 0 <= i < |TimesOf(sweeper, params)| :: TextDetermines(child, d, TimesOf(sweeper, params)[i])
  }

  /** Executing the plan at the parameters executes some node of it at q. */
  ghost predicate Reaches(plan: Plan, params: EvalParams, q: EvalParams) {
    q == params ||
    match plan
    case Leaf(_) => false
    case Memoized(_, inner) => Reaches(inner, params, q)
    case Combine(_, lhs, rhs) => Reaches(lhs, params, q) || Reaches(rhs, params, q)
    case Sweep(sweeper, _, child) =>
      exists i :: 0 <= i < |TimesOf(sweeper, params)| && Reaches(child, TimesOf(sweeper, params)[i], q)
  }

  /** Every parameter the execution reaches lies in the scope. */
  ghost predicate StaysIn(plan: Plan, params: EvalParams, scope: iset<EvalParams>) {
    forall q | Reaches(plan, params, q) :: q in scope
  }

  /** No two parameters of the scope share their keys. */
  ghost predicate Separated(scope: iset<EvalParams>) {
    forall p, q | p in scope && q in scope && SameKeyFields(p, q) :: p == q
  }

  ghost predicate Sound(memo: Memo, d: Denotations, scope: iset<EvalParams>) {
    forall e, p | p in scope && MemoKey(e, p) in memo :: d(e, p) == Ok(memo[MemoKey(e, p)])
  }

  lemma StoringKeepsSound(memo: Memo, d: Denotations, scope: iset<EvalParams>, expr: string, params: EvalParams,
      v: Value)
    requires Separated(scope) && Sound(memo, d, scope) && params in scope && d(expr, params) == Ok(v)
    ensures Sound(memo[MemoKey(expr, params) := v], d, scope)
  {
    var memo' := memo[MemoKey(expr, params) := v];
    forall e, p | p in scope && MemoKey(e, p) in memo'
      ensures d(e, p) == Ok(memo'[MemoKey(e, p)])
    {
      KeysCollideExactly(e, p, expr, params);
    }
  }

  lemma {:induction false} RunIsPlain(plan: Plan, params: EvalParams, memo: Memo, d: Denotations,
      scope: iset<EvalParams>)
    requires Separated(scope) && StaysIn(plan, params, scope) && TextDetermines(plan, d, params)
        && Sound(memo, d, scope)
    ensures Run(plan, params, memo).0 == Plain(plan, params)
    ensures Sound(Run(plan, params, memo).1, d, scope)
    decreases plan, 0
  {
    match plan
    case Leaf(_) =>
    case Memoized(expr, inner) =>
      assert Reaches(plan, params, params);
      var key := MemoKey(expr, params);
      if key !in memo {
        RunIsPlain(inner, params, memo, d, scope);
        var (value, memo') := Run(inner, params, memo);
        if value.Ok? {
          StoringKeepsSound(memo', d, scope, expr, params, value.value);
        }
      }
    case Combine(op, lhs, rhs) =>
      RunIsPlain(lhs, params, memo, d, scope);
      RunIsPlain(rhs, params, Run(lhs, params, memo).1, d, scope);
    case Sweep(sweeper, fold, child) =>
      SweepStaysIn(plan, params, scope);
      RunAllIsPlain(child, TimesOf(sweeper, params), memo, d, scope);
  }

  lemma SweepStaysIn(plan: Plan, params: EvalParams, scope: iset<EvalParams>)
    requires plan.Sweep? && StaysIn(plan, params, scope)
    ensures forall i | 0 <= i < |TimesOf(plan.sweeper, params)| ::
        StaysIn(plan.child, TimesOf(plan.sweeper, params)[i], scope)
  {
    var at := TimesOf(plan.sweeper, params);
    forall i, q | 0 <= i < |at| && Reaches(plan.child, at[i], q)
      ensures q in scope
    {
      assert Reaches(plan, params, q);
    }
  }

  lemma {:induction false} RunAllIsPlain(plan: Plan, at: seq<EvalParams>, memo: Memo, d: Denotations,
      scope: iset<EvalParams>)
    requires Separated(scope) && Sound(memo, d, scope)
    requires forall i | 0 <= i < |at| :: StaysIn(plan, at[i], scope) && TextDetermines(plan, d, at[i])
    ensures RunAll(plan, at, memo).0 == PlainAll(plan, at)
    ensures Sound(RunAll(plan, at, memo).1, d, scope)
    decreases plan, |at|
  {
    if at != [] {
      RunIsPlain(plan, at[0], memo, d, scope);
      RunAllIsPlain(plan, at[1..], Run(plan, at[0], memo).1, d, scope);
    }
  }

  /** The memo never changes an answer of an execution that stays in the scope. */
  ghost predicate FaithfulOn(scope: iset<EvalParams>) {
    forall plan: Plan, d: Denotations, params | StaysIn(plan, params, scope) && TextDetermines(plan, d, params) ::
      Run(plan, params, map[]).0 == Plain(plan, params)
  }

  /** Memoised evaluation equals plain evaluation for every plan exactly when no two parameters in
      play share a key. */
  lemma FaithfulExactlyWhenSeparated(scope: iset<EvalParams>)
    ensures FaithfulOn(scope) <==> Separated(scope)
  {
    if Separated(scope) {
      forall plan: Plan, d: Denotations, params | StaysIn(plan, params, scope) && TextDetermines(plan, d, params)
        ensures Run(plan, params, map[]).0 == Plain(plan, params)
      {
        RunIsPlain(plan, params, map[], d, scope);
      }
    } else {
      var p, q :| p in scope && q in scope && SameKeyFields(p, q) && p != q;
      var run: EvalParams -> Outcome := x => Ok(if x == p then 0.0 else 1.0);
      var d: Denotations := (e: string, x: EvalParams) => Ok(if x == p then 0.0 else 1.0);
      var plan := TwicePlan(p, q, run);
      TwicePlanQualifies(p, q, run, d, scope);
      CollisionShows(p, q, run);
    }
  }

  lemma TwicePlanQualifies(p: EvalParams, q: EvalParams, run: EvalParams -> Outcome, d: Denotations,
      scope: iset<EvalParams>)
    requires p in scope && q in scope && forall x :: run(x) == d("x", x)
    ensures StaysIn(TwicePlan(p, q, run), p, scope) && TextDetermines(TwicePlan(p, q, run), d, p)
  {
    var plan := TwicePlan(p, q, run);
    assert TimesOf(plan.sweeper, p) == [p, q];
    assert forall x, y :: Reaches(plan.child, x, y) <==> x == y;
    assert forall x :: TextDetermines(plan.child, d, x);
  }

  /** `x` at p, then `x` at q: the answer is the second value. */
  function TwicePlan(p: EvalParams, q: EvalParams, run: EvalParams -> Outcome): Plan {
    Sweep(AnyTimes(_ => [p, q]),
          (at: EvalParams, vs: seq<Value>) => if |vs| == 2 then Ok(vs[1]) else Ok(-1.0),
          Memoized("x", Leaf(run)))
  }

  lemma CollisionShows(p: EvalParams, q: EvalParams, run: EvalParams -> Outcome)
    requires SameKeyFields(p, q) && run(p) == Ok(0.0) && run(q) == Ok(1.0)
    ensures Run(TwicePlan(p, q, run), p, map[]).0 == Ok(0.0)
    ensures Plain(TwicePlan(p, q, run), p) == Ok(1.0)
  {
    KeysCollideExactly("x", p, "x", q);
    var x, memo := Memoized("x", Leaf(run)), map[MemoKey("x", p) := 0.0];
    assert Run(x, p, map[]) == (Ok(0.0), memo) && Run(x, q, memo) == (Ok(0.0), memo);
    assert [p, q][1..] == [q];
    OneStep(x, q, memo);
    assert RunAll(x, [p, q], map[]) == (Ok([0.0] + [0.0]), memo);
    assert Plain(x, p) == Ok(0.0) && Plain(x, q) == Ok(1.0);
    assert PlainAll(x, [p, q]) == Ok([0.0] + [1.0]);
  }

  lemma OneStep(plan: Plan, q: EvalParams, memo: Memo)
    requires Run(plan, q, memo).0.Ok? && Plain(plan, q).Ok?
    ensures RunAll(plan, [q], memo) == (Ok([Run(plan, q, memo).0.value]), Run(plan, q, memo).1)
    ensures PlainAll(plan, [q]) == Ok([Plain(plan, q).value])
  {
    var memo', none: seq<EvalParams> := Run(plan, q, memo).1, [];
    assert [q][1..] == none;
    var v, w, rest: seq<Value> := Run(plan, q, memo).0.value, Plain(plan, q).value, [];
    assert RunAll(plan, none, memo') == (Ok(rest), memo') && PlainAll(plan, none) == Ok(rest);
    assert [v] + rest == [v] && [w] + rest == [w];
  }

  // ---- Requests -------------------------------------------------------------------------

  /** Only the repository's own ways of sweeping. */
  ghost predicate RealSweeps(plan: Plan) {
    match plan
    case Leaf(_) => true
    case Memoized(_, inner) => RealSweeps(inner)
    case Combine(_, lhs, rhs) => RealSweeps(lhs) && RealSweeps(rhs)
    case Sweep(sweeper, _, child) => !sweeper.AnyTimes? && RealSweeps(child)
  }

  /** What a mode does not use is the zero time, as the service and the sweeps build parameters. */
  predicate Shaped(p: EvalParams) {
    match p.mode
    case InstantMode => p.start == p.end == ZERO_TIME
    case RangeMode => p.evaluationTime == ZERO_TIME
  }

  /** What a mode uses is not the zero time. */
  predicate AvoidsZeroTime(p: EvalParams) {
    match p.mode
    case InstantMode => p.evaluationTime != ZERO_TIME
    case RangeMode => p.start != ZERO_TIME && p.end != ZERO_TIME
  }

  lemma ProperParamsAreSeparated()
    ensures Separated(iset p | Shaped(p) && AvoidsZeroTime(p))
  {
  }

  lemma SweepsKeepShape(sweeper: Sweeper, params: EvalParams)
    requires !sweeper.AnyTimes? && Shaped(params)
    ensures forall i | 0 <= i < |TimesOf(sweeper, params)| :: Shaped(TimesOf(sweeper, params)[i])
  {
    if sweeper.Chunks? && params.mode == RangeMode && params.step > 0 && sweeper.chunkPoints > 0 {
      SplitMakesChunks(params, sweeper.chunkPoints);
      var chunks := Split(params, sweeper.chunkPoints);
      assert forall i | 0 <= i < |chunks| :: IsChunkOf(chunks[i], params, sweeper.chunkPoints);
    }
  }

  lemma {:induction false} ReachedAreShaped(plan: Plan, params: EvalParams, q: EvalParams)
    requires RealSweeps(plan) && Shaped(params) && Reaches(plan, params, q)
    ensures Shaped(q)
    decreases plan
  {
    if q != params {
      match plan
      case Memoized(_, inner) => ReachedAreShaped(inner, params, q);
      case Combine(_, lhs, rhs) =>
        if Reaches(lhs, params, q) {
          ReachedAreShaped(lhs, params, q);
        } else {
          ReachedAreShaped(rhs, params, q);
        }
      case Sweep(sweeper, _, child) =>
        SweepsKeepShape(sweeper, params);
        var i :| 0 <= i < |TimesOf(sweeper, params)| && Reaches(child, TimesOf(sweeper, params)[i], q);
        ReachedAreShaped(child, TimesOf(sweeper, params)[i], q);
    }
  }

  /** One request answers as if nothing were memoised, whatever its plan and its sweeps, if none of the
      parameters it reaches uses the zero time. */
  lemma MemoIsInvisible(plan: Plan, params: EvalParams, d: Denotations)
    requires RealSweeps(plan) && Shaped(params) && TextDetermines(plan, d, params)
    requires forall q | Reaches(plan, params, q) :: AvoidsZeroTime(q)
    ensures Evaluate(plan, params)
            == match Plain(plan, params)
               case Ok(v) => Ok(v)
               case Err(e) => Err(InContext("evaluating query plan", e))
  {
    ProperParamsAreSeparated();
    forall q | Reaches(plan, params, q)
      ensures Shaped(q)
    {
      ReachedAreShaped(plan, params, q);
    }
    RunIsPlain(plan, params, map[], d, iset p | Shaped(p) && AvoidsZeroTime(p));
  }

  // ---- Requests that stay after the zero time -------------------------------------------

  /** No time of the parameters is before `low`. */
  predicate NotBefore(p: EvalParams, low: int) {
    match p.mode
    case InstantMode => low <= p.evaluationTime
    case RangeMode => low <= p.start <= p.end
  }

  /** The earliest time at which a sweep over times from `low` on can evaluate its child. */
  function EarliestOf(sweeper: Sweeper, low: int): int {
    match sweeper
    case SubqueryGrid(p) => (if p.timestamp.Some? then p.timestamp.value else low) - p.offset - p.range + 1
    case _ => low
  }

  /** A plan executed from `low` on stays after the zero time: a check on the plan alone, that no chain
      of subqueries reaches back to the year 1. */
  ghost predicate StaysAfterZeroTime(plan: Plan, low: int) {
    low > ZERO_TIME &&
    match plan
    case Leaf(_) => true
    case Memoized(_, inner) => StaysAfterZeroTime(inner, low)
    case Combine(_, lhs, rhs) => StaysAfterZeroTime(lhs, low) && StaysAfterZeroTime(rhs, low)
    case Sweep(sweeper, _, child) => !sweeper.AnyTimes? && StaysAfterZeroTime(child, EarliestOf(sweeper, low))
  }

  lemma SweepsStart(sweeper: Sweeper, params: EvalParams, low: int)
    requires !sweeper.AnyTimes? && NotBefore(params, low)
    ensures forall i | 0 <= i < |TimesOf(sweeper, params)| ::
        NotBefore(TimesOf(sweeper, params)[i], EarliestOf(sweeper, low))
  {
    match sweeper
    case Chunks(chunkPoints) =>
      if params.mode == RangeMode && params.step > 0 && chunkPoints > 0 {
        SplitMakesChunks(params, chunkPoints);
        var chunks := Split(params, chunkPoints);
        assert forall i | 0 <= i < |chunks| :: IsChunkOf(chunks[i], params, chunkPoints);
      }
    case Steps =>
      if params.mode == RangeMode && params.step > 0 {
        GridNotBefore(params.start, params.end, params.step);
      }
    case SubqueryGrid(p) =>
      if p.range > 0 {
        Subquery.WindowHoldsMultiples(p, params);
        var w := Subquery.ExecutionWindow(p, params).value;
        assert forall i | 0 <= i < |Subquery.GridOf(w)| :: Subquery.GridOf(w)[i] in Subquery.GridOf(w);
      }
  }

  lemma {:induction false} GridNotBefore(start: int, end: int, step: int)
    requires step > 0
    ensures forall i | 0 <= i < |Grid(start, end, step)| :: start <= Grid(start, end, step)[i]
    decreases end - start
  {
    if start <= end {
      GridNotBefore(start + step, end, step);
    }
  }

  lemma {:induction false} LateRequestsAvoidZeroTime(plan: Plan, params: EvalParams, low: int, q: EvalParams)
    requires StaysAfterZeroTime(plan, low) && NotBefore(params, low) && Reaches(plan, params, q)
    ensures AvoidsZeroTime(q)
    decreases plan
  {
    if q != params {
      match plan
      case Memoized(_, inner) => LateRequestsAvoidZeroTime(inner, params, low, q);
      case Combine(_, lhs, rhs) =>
        if Reaches(lhs, params, q) {
          LateRequestsAvoidZeroTime(lhs, params, low, q);
        } else {
          LateRequestsAvoidZeroTime(rhs, params, low, q);
        }
      case Sweep(sweeper, _, child) =>
        SweepsStart(sweeper, params, low);
        var i :| 0 <= i < |TimesOf(sweeper, params)| && Reaches(child, TimesOf(sweeper, params)[i], q);
        LateRequestsAvoidZeroTime(child, TimesOf(sweeper, params)[i], EarliestOf(sweeper, low), q);
    }
  }

  lemma {:induction false} LatePlansSweepForReal(plan: Plan, low: int)
    requires StaysAfterZeroTime(plan, low)
    ensures RealSweeps(plan)
  {
    match plan
    case Leaf(_) =>
    case Memoized(_, inner) => LatePlansSweepForReal(inner, low);
    case Combine(_, lhs, rhs) =>
      LatePlansSweepForReal(lhs, low);
      LatePlansSweepForReal(rhs, low);
    case Sweep(sweeper, _, child) => LatePlansSweepForReal(child, EarliestOf(sweeper, low));
  }

  /** Hence the memo is invisible to every request, through chunks, range steps and nested subqueries,
      whose windows do not reach back to the year 1. */
  lemma MemoIsInvisibleAfterZeroTime(plan: Plan, params: EvalParams, low: int, d: Denotations)
    requires StaysAfterZeroTime(plan, low) && NotBefore(params, low) && Shaped(params)
        && TextDetermines(plan, d, params)
    ensures Evaluate(plan, params)
            == match Plain(plan, params)
               case Ok(v) => Ok(v)
               case Err(e) => Err(InContext("evaluating query plan", e))
  {
    LatePlansSweepForReal(plan, low);
    forall q | Reaches(plan, params, q)
      ensures AvoidsZeroTime(q)
    {
      LateRequestsAvoidZeroTime(plan, params, low, q);
    }
    MemoIsInvisible(plan, params, d);
  }

  /** The two sweeps of the evaluator over a memoised leaf: a range query stays after the zero time if
      it starts after it, a subquery without `@` if its window does not start before it. */
  lemma SweepsOverAMemo(
      expr: string, run: EvalParams -> Outcome, fold: (EvalParams, seq<Value>) -> Outcome,
      p: Subquery.SubqueryPlan, low: int)
    requires p.timestamp.None? && p.range > 0 && p.offset >= 0
    ensures StaysAfterZeroTime(Sweep(Steps, fold, Memoized(expr, Leaf(run))), low) <==> low > ZERO_TIME
    ensures StaysAfterZeroTime(Sweep(SubqueryGrid(p), fold, Memoized(expr, Leaf(run))), low)
        <==> low - p.offset - p.range >= ZERO_TIME
    ensures StaysAfterZeroTime(Sweep(Steps, fold, Sweep(SubqueryGrid(p), fold, Memoized(expr, Leaf(run)))), low)
            <==> low - p.offset - p.range >= ZERO_TIME
  {
    var memo := Memoized(expr, Leaf(run));
    assert forall t :: StaysAfterZeroTime(memo, t) <==> t > ZERO_TIME;
  }

  /** Where the sweeps take their child. Over a range, chunks go over the points of the range once and in
      order, and range steps are the instants start, start + step, ... up to the end. */
  lemma RangeSweeps(params: EvalParams, chunkPoints: int)
    requires params.mode == RangeMode && params.step > 0
    ensures var at := TimesOf(Chunks(chunkPoints), params);
            if chunkPoints <= 0 then at == []
            else
              && (forall i | 0 <= i < |at| :: IsChunkOf(at[i], params, chunkPoints))
              && Grids(at) == Grid(params.start, params.end, params.step)
    ensures var at := TimesOf(Steps, params);
            && |at| == (if params.start > params.end then 0 else (params.end - params.start) / params.step + 1)
            && forall i | 0 <= i < |at| ::
                 at[i] == EvalParams(InstantMode, params.start + i * params.step, ZERO_TIME, ZERO_TIME, 0)
  {
    GridIsArithmetic(params.start, params.end, params.step);
    if chunkPoints > 0 {
      SplitCoversTheGrid(params, chunkPoints);
    }
  }

  /** A subquery takes its child to the instants of its own grid in order, unless there are too many. */
  lemma SubquerySweeps(p: Subquery.SubqueryPlan, params: EvalParams)
    ensures p.range <= 0 ==> TimesOf(SubqueryGrid(p), params) == []
    ensures p.range > 0 ==>
              var grid := Subquery.GridOf(Subquery.ExecutionWindow(p, params).value);
              var at := TimesOf(SubqueryGrid(p), params);
              if p.maxPoints > 0 && |grid| > p.maxPoints then at == []
              else |at| == |grid|
                   && forall i | 0 <= i < |at| :: at[i] == EvalParams(InstantMode, grid[i], ZERO_TIME, ZERO_TIME, 0)
  {
    if p.range > 0 {
      Subquery.CountIsGridSize(Subquery.ExecutionWindow(p, params).value);
    }
  }

  /** The collision exists: an evaluation time of year 1 and the epoch share every key. */
  lemma ZeroTimeCollidesWithEpoch(expr: string)
    ensures var year1 := EvalParams(InstantMode, ZERO_TIME, ZERO_TIME, ZERO_TIME, 0);
            MemoKey(expr, year1) == MemoKey(expr, year1.(evaluationTime := 0))
  {
    var year1 := EvalParams(InstantMode, ZERO_TIME, ZERO_TIME, ZERO_TIME, 0);
    KeysCollideExactly(expr, year1, expr, year1.(evaluationTime := 0));
  }
}
