/** The rewrite of an expression before it is delegated to ClickHouse: `@ start()`/`@ end()` become
    literal times, missing subquery steps are filled, and every range grows by a millisecond because
    ClickHouse's windows are open on the left. The passes change the syntax tree in place. */
module DelegatedRewrite {
  import opened GoBasics
  import opened RangeChunks
  import opened Subquery

  const CLICKHOUSE_RANGE_PADDING := 1

  /** The kinds of node the passes tell apart. Names, functions and operators are numbered; a
      matrix selector stands together with its vector selector; literals have no children; the
      optional parameter of an aggregation is its first child. */
  datatype Kind =
    | Literal(id: int)
    | VectorSelector(id: int)
    | MatrixSelector(id: int)
    | SubqueryExpr
    | Call(id: int)
    | Aggregate(id: int)
    | Binary(id: int)
    | Unary(id: int)
    | Paren
    | StepInvariant

  /** The `@` modifier of a selector or subquery: a literal time, or one of the two tokens. */
  datatype At = At(timestamp: Option<int>, token: Token)

  datatype Expr = Expr(kind: Kind, at: At, offset: int, range: int, step: int, kids: seq<Expr>)

  predicate HasAt(kind: Kind) {
    kind.VectorSelector? || kind.MatrixSelector? || kind.SubqueryExpr?
  }

  predicate HasRange(kind: Kind) {
    kind.MatrixSelector? || kind.SubqueryExpr?
  }

  // ---- The passes as functions ----------------------------------------------------------

  predicate ContainsStartEnd(e: Expr) {
    (HasAt(e.kind) && !e.at.token.NoToken?) || exists i :: 0 <= i < |e.kids| && ContainsStartEnd(e.kids[i])
  }

  function ResolvedAt(at: At, params: EvalParams): At {
    match ResolveStartEnd(at.token, params)
    case None => at
    case Some(ms) => At(Some(ms), NoToken)
  }

  function Resolve(e: Expr, params: EvalParams): Expr {
    e.(at := if HasAt(e.kind) then ResolvedAt(e.at, params) else e.at,
       kids := seq(|e.kids|, i requires 0 <= i < |e.kids| => Resolve(e.kids[i], params)))
  }

  function EffectiveInterval(interval: int): (r: int)
    ensures r == if interval > 0 then interval else 60_000
  {
    if interval <= 0 then DEFAULT_EVALUATION_INTERVAL else interval
  }

  function Fill(e: Expr, interval: int): Expr {
    e.(step := if e.kind.SubqueryExpr? && e.step <= 0 then EffectiveInterval(interval) else e.step,
       kids := seq(|e.kids|, i requires 0 <= i < |e.kids| => Fill(e.kids[i], interval)))
  }

  function Pad(e: Expr, delta: int): Expr {
    e.(range := if HasRange(e.kind) then e.range + delta else e.range,
       kids := seq(|e.kids|, i requires 0 <= i < |e.kids| => Pad(e.kids[i], delta)))
  }

  /** The three passes in order; the first only when there is something to resolve. */
  function Rewrite(e: Expr, params: EvalParams, interval: int): Expr {
    var resolved := if ContainsStartEnd(e) then Resolve(e, params) else e;
    Pad(Fill(resolved, interval), CLICKHOUSE_RANGE_PADDING)
  }

  // ---- The passes in place --------------------------------------------------------------

  /** A node of the syntax tree. The shape of the tree is fixed once built; `@`, range and step are
      what the passes write. */
  class Node {
    const kind: Kind
    const offset: int
    const kids: seq<Node>
    var at: At
    var range: int
    var step: int
    ghost const height: nat
    ghost const repr: set<Node>

    /** No node occurs twice in the tree. */
    ghost predicate Valid()
      decreases height
    {
      && this in repr
      && (forall i | 0 <= i < |kids| ::
            kids[i].height < height && kids[i].repr <= repr && this !in kids[i].repr && kids[i].Valid())
      && (forall i, j | 0 <= i < j < |kids| :: kids[i].repr !! kids[j].repr)
    }

    ghost function Tree(): Expr
      requires Valid()
      reads repr
      decreases height
    {
      Expr(kind, at, offset, range, step, seq(|kids|, i requires 0 <= i < |kids| reads repr => kids[i].Tree()))
    }

    constructor (kind: Kind, at: At, offset: int, range: int, step: int, kids: seq<Node>, ghost height: nat)
      requires forall i | 0 <= i < |kids| :: kids[i].Valid() && kids[i].height < height
      requires forall i, j | 0 <= i < j < |kids| :: kids[i].repr !! kids[j].repr
      ensures Valid() && Tree().(kids := []) == Expr(kind, at, offset, range, step, []) && this.kids == kids
      ensures this.height == height && repr == {this} + set i, o | 0 <= i < |kids| && o in kids[i].repr :: o
    {
      this.kind, this.at, this.offset, this.range, this.step, this.kids := kind, at, offset, range, step, kids;
      this.height := height;
      this.repr := {this} + set i, o | 0 <= i < |kids| && o in kids[i].repr :: o;
    }
  }

  method ContainsStartEndAtModifier(expr: Node) returns (found: bool)
    requires expr.Valid()
    ensures found == ContainsStartEnd(expr.Tree())
    decreases expr.height
  {
    if HasAt(expr.kind) && !expr.at.token.NoToken? {
      return true;
    }
    for i := 0 to |expr.kids|
      invariant forall j | 0 <= j < i :: !ContainsStartEnd(expr.Tree().kids[j])
    {
      var below := ContainsStartEndAtModifier(expr.kids[i]);
      if below {
        assert ContainsStartEnd(expr.Tree().kids[i]);
        return true;
      }
    }
    return false;
  }

  method ResolveStartEndAtModifierRecursive(expr: Node, params: EvalParams)
    requires expr.Valid()
    modifies expr.repr
    ensures expr.Tree() == Resolve(old(expr.Tree()), params)
    decreases expr.height
  {
    if HasAt(expr.kind) {
      expr.at := ResolvedAt(expr.at, params);
    }
    for i := 0 to |expr.kids|
      invariant expr.at == (if HasAt(expr.kind) then ResolvedAt(old(expr.at), params) else old(expr.at))
      invariant expr.range == old(expr.range) && expr.step == old(expr.step)
      invariant forall j | 0 <= j < i :: expr.kids[j].Tree() == Resolve(old(expr.kids[j].Tree()), params)
      invariant forall j | i <= j < |expr.kids| :: expr.kids[j].Tree() == old(expr.kids[j].Tree())
    {
      ResolveStartEndAtModifierRecursive(expr.kids[i], params);
    }
    assert expr.Tree().kids == Resolve(old(expr.Tree()), params).kids;
  }

  method FillNoStepSubqueryIntervals(expr: Node, interval: int)
    requires expr.Valid()
    modifies expr.repr
    ensures expr.Tree() == Fill(old(expr.Tree()), interval)
    ensures FilledTo(old(expr.Tree()), expr.Tree(), interval)
    decreases expr.height
  {
    if expr.kind.SubqueryExpr? && expr.step <= 0 {
      expr.step := EffectiveInterval(interval);
    }
    for i := 0 to |expr.kids|
      invariant expr.step
                == if expr.kind.SubqueryExpr? && old(expr.step) <= 0
                   then EffectiveInterval(interval) else old(expr.step)
      invariant expr.range == old(expr.range) && expr.at == old(expr.at)
      invariant forall j | 0 <= j < i :: expr.kids[j].Tree() == Fill(old(expr.kids[j].Tree()), interval)
      invariant forall j | i <= j < |expr.kids| :: expr.kids[j].Tree() == old(expr.kids[j].Tree())
    {
      FillNoStepSubqueryIntervals(expr.kids[i], interval);
    }
    assert expr.Tree().kids == Fill(old(expr.Tree()), interval).kids;
    FillIsExact(old(expr.Tree()), interval);
  }

  method PadDelegatedRanges(expr: Node, delta: int)
    requires expr.Valid()
    modifies expr.repr
    ensures expr.Tree() == Pad(old(expr.Tree()), delta)
    decreases expr.height
  {
    if HasRange(expr.kind) {
      expr.range := expr.range + delta;
    }
    for i := 0 to |expr.kids|
      invariant expr.range == if HasRange(expr.kind) then old(expr.range) + delta else old(expr.range)
      invariant expr.step == old(expr.step) && expr.at == old(expr.at)
      invariant forall j | 0 <= j < i :: expr.kids[j].Tree() == Pad(old(expr.kids[j].Tree()), delta)
      invariant forall j | i <= j < |expr.kids| :: expr.kids[j].Tree() == old(expr.kids[j].Tree())
    {
      PadDelegatedRanges(expr.kids[i], delta);
    }
    assert expr.Tree().kids == Pad(old(expr.Tree()), delta).kids;
  }

  /** On the freshly parsed tree. */
  method ResolveDelegatedPromQL(parsed: Node, params: EvalParams, interval: int)
    requires parsed.Valid()
    modifies parsed.repr
    ensures parsed.Tree() == Rewrite(old(parsed.Tree()), params, interval)
    ensures RewrittenTo(old(parsed.Tree()), parsed.Tree(), params, interval)
  {
    RewriteShape(parsed.Tree(), params, interval);
    var tokens := ContainsStartEndAtModifier(parsed);
    if tokens {
      ResolveStartEndAtModifierRecursive(parsed, params);
    }
    FillNoStepSubqueryIntervals(parsed, interval);
    PadDelegatedRanges(parsed, CLICKHOUSE_RANGE_PADDING);
  }

  // ---- Meaning --------------------------------------------------------------------------

  type Value = real

  /** What selectors, subqueries, functions and operators compute: anything at all, as long as a
      range selector depends only on the times its window holds and a subquery only on the values at
      its grid times. */
  datatype Semantics = Semantics(
    selector: (int, int) -> Value,
    samples: (int, iset<int>) -> Value,
    subquery: imap<int, seq<Value>> -> Value,
    apply: (Kind, int, seq<Value>) -> Value)

  /** An evaluator: the request's bounds, its default subquery interval, and whether its windows
      are open on the left. */
  datatype Evaluator = Evaluator(params: EvalParams, interval: int, leftOpen: bool)

  /** The time an `@` pins; the request-level tokens come first, as upstream's preprocessing has it. */
  function AtTime(at: At, params: EvalParams, t: int): int {
    match ResolveStartEnd(at.token, params)
    case Some(ms) => ms
    case None => if at.timestamp.Some? then at.timestamp.value else t
  }

  predicate InWindow(m: int, leftOpen: bool, range: int, end: int) {
    (if leftOpen then end - range < m else end - range <= m) && m <= end
  }

  ghost function Window(leftOpen: bool, range: int, end: int): iset<int> {
    iset m: int | InWindow(m, leftOpen, range, end)
  }

  ghost function GridTimes(window: iset<int>, step: int): iset<int>
    requires step > 0
  {
    iset m | m in window && m % step == 0
  }

  function StepOf(ev: Evaluator, e: Expr): int {
    if e.step > 0 then e.step else if ev.interval > 0 then ev.interval else 60_000
  }

  ghost function Eval(sem: Semantics, ev: Evaluator, e: Expr, t: int): Value
    decreases e, 1
  {
    var end := AtTime(e.at, ev.params, t) - e.offset;
    match e.kind
    case VectorSelector(id) => sem.selector(id, end)
    case MatrixSelector(id) => sem.samples(id, Window(ev.leftOpen, e.range, end))
    case SubqueryExpr =>
      sem.subquery(imap m | m in GridTimes(Window(ev.leftOpen, e.range, end), StepOf(ev, e)) :: EvalKids(sem, ev, e, m))
    case _ => sem.apply(e.kind, t, EvalKids(sem, ev, e, t))
  }

  ghost function EvalKids(sem: Semantics, ev: Evaluator, e: Expr, t: int): seq<Value>
    decreases e, 0
  {
    seq(|e.kids|, i requires 0 <= i < |e.kids| => Eval(sem, ev, e.kids[i], t))
  }

  /** Two nodes mean the same when they look at the same end, window and grid, and their children
      always mean the same. */
  lemma NodesAgree(sem: Semantics, ev: Evaluator, e: Expr, ev': Evaluator, e': Expr, t: int)
    requires e'.kind == e.kind
    requires HasAt(e.kind) ==> AtTime(e'.at, ev'.params, t) - e'.offset == AtTime(e.at, ev.params, t) - e.offset
    requires HasRange(e.kind) ==>
               var end := AtTime(e.at, ev.params, t) - e.offset;
               Window(ev'.leftOpen, e'.range, end) == Window(ev.leftOpen, e.range, end)
    requires e.kind.SubqueryExpr? ==> StepOf(ev', e') == StepOf(ev, e)
    requires forall m :: EvalKids(sem, ev', e', m) == EvalKids(sem, ev, e, m)
    ensures Eval(sem, ev', e', t) == Eval(sem, ev, e, t)
  {
    if e.kind.SubqueryExpr? {
      var end := AtTime(e.at, ev.params, t) - e.offset;
      var grid := GridTimes(Window(ev.leftOpen, e.range, end), StepOf(ev, e));
      assert (imap m | m in grid :: EvalKids(sem, ev', e', m)) == (imap m | m in grid :: EvalKids(sem, ev, e, m));
    }
  }

  lemma {:induction false} ResolveKeepsMeaning(sem: Semantics, ev: Evaluator, e: Expr, t: int)
    ensures Eval(sem, ev, Resolve(e, ev.params), t) == Eval(sem, ev, e, t)
    decreases e
  {
    forall m
      ensures EvalKids(sem, ev, Resolve(e, ev.params), m) == EvalKids(sem, ev, e, m)
    {
      forall i | 0 <= i < |e.kids| {
        ResolveKeepsMeaning(sem, ev, e.kids[i], m);
      }
    }
    NodesAgree(sem, ev, e, ev, Resolve(e, ev.params), t);
  }

  lemma {:induction false} FillKeepsMeaning(sem: Semantics, ev: Evaluator, e: Expr, t: int)
    ensures Eval(sem, ev, Fill(e, ev.interval), t) == Eval(sem, ev, e, t)
    decreases e
  {
    forall m
      ensures EvalKids(sem, ev, Fill(e, ev.interval), m) == EvalKids(sem, ev, e, m)
    {
      forall i | 0 <= i < |e.kids| {
        FillKeepsMeaning(sem, ev, e.kids[i], m);
      }
    }
    NodesAgree(sem, ev, e, ev, Fill(e, ev.interval), t);
  }

  /** One more millisecond on a left-open window is a closed window. */
  lemma {:induction false} PadClosesWindows(sem: Semantics, ev: Evaluator, e: Expr, t: int)
    ensures Eval(sem, ev.(leftOpen := true), Pad(e, CLICKHOUSE_RANGE_PADDING), t)
        == Eval(sem, ev.(leftOpen := false), e, t)
    decreases e
  {
    var open, closed := ev.(leftOpen := true), ev.(leftOpen := false);
    forall m
      ensures EvalKids(sem, open, Pad(e, CLICKHOUSE_RANGE_PADDING), m) == EvalKids(sem, closed, e, m)
    {
      forall i | 0 <= i < |e.kids| {
        PadClosesWindows(sem, ev, e.kids[i], m);
      }
    }
    NodesAgree(sem, closed, e, open, Pad(e, CLICKHOUSE_RANGE_PADDING), t);
  }

  /** No subquery is left without a step. */
  predicate StepsGiven(e: Expr) {
    (e.kind.SubqueryExpr? ==> e.step > 0) && forall i :: 0 <= i < |e.kids| ==> StepsGiven(e.kids[i])
  }

  /** Without tokens and missing steps, the request's bounds and default interval do not matter. */
  lemma {:induction false} SelfContained(sem: Semantics, ev: Evaluator, ev': Evaluator, e: Expr, t: int)
    requires !ContainsStartEnd(e) && StepsGiven(e) && ev.leftOpen == ev'.leftOpen
    ensures Eval(sem, ev, e, t) == Eval(sem, ev', e, t)
    decreases e
  {
    forall m
      ensures EvalKids(sem, ev', e, m) == EvalKids(sem, ev, e, m)
    {
      forall i | 0 <= i < |e.kids| {
        SelfContained(sem, ev, ev', e.kids[i], m);
      }
    }
    NodesAgree(sem, ev, e, ev', e, t);
  }

  // ---- Shape ----------------------------------------------------------------------------

  lemma {:induction false} ResolveIsComplete(e: Expr, params: EvalParams)
    ensures !ContainsStartEnd(Resolve(e, params))
    ensures !ContainsStartEnd(e) ==> Resolve(e, params) == e
  {
    forall i | 0 <= i < |e.kids| {
      ResolveIsComplete(e.kids[i], params);
    }
    assert !ContainsStartEnd(e) ==> Resolve(e, params).kids == e.kids;
  }

  lemma {:induction false} FillIsComplete(e: Expr, interval: int)
    ensures StepsGiven(Fill(e, interval))
    ensures ContainsStartEnd(Fill(e, interval)) == ContainsStartEnd(e)
  {
    forall i | 0 <= i < |e.kids| {
      FillIsComplete(e.kids[i], interval);
    }
    assert forall i | 0 <= i < |e.kids| :: Fill(e, interval).kids[i] == Fill(e.kids[i], interval);
  }

  lemma {:induction false} PadTouchesRangesOnly(e: Expr, delta: int)
    ensures ContainsStartEnd(Pad(e, delta)) == ContainsStartEnd(e)
    ensures StepsGiven(Pad(e, delta)) == StepsGiven(e)
    ensures Pad(Pad(e, delta), -delta) == e
  {
    forall i | 0 <= i < |e.kids| {
      PadTouchesRangesOnly(e.kids[i], delta);
    }
    assert forall i | 0 <= i < |e.kids| :: Pad(e, delta).kids[i] == Pad(e.kids[i], delta);
    assert Pad(Pad(e, delta), -delta).kids == e.kids;
  }

  /** `after` is `before` with every token resolved, every missing step filled, and every range one
      millisecond longer, and nothing else changed. */
  ghost predicate RewrittenTo(before: Expr, after: Expr, params: EvalParams, interval: int) {
    && after.kind == before.kind && after.offset == before.offset
    && after.range == before.range + (if before.kind.MatrixSelector? || before.kind.SubqueryExpr? then 1 else 0)
    && after.step == (if !before.kind.SubqueryExpr? || before.step > 0 then before.step
                      else if interval > 0 then interval else 60_000)
    && after.at == (if !before.kind.VectorSelector? && !before.kind.MatrixSelector? && !before.kind.SubqueryExpr?
                    then before.at
                    else if before.at.token.StartToken? then
                      At(Some(if params.mode == RangeMode then params.start else params.evaluationTime), NoToken)
                    else if before.at.token.EndToken? then
                      At(Some(if params.mode == RangeMode then params.end else params.evaluationTime), NoToken)
                    else before.at)
    && |after.kids| == |before.kids|
    && forall i | 0 <= i < |before.kids| :: RewrittenTo(before.kids[i], after.kids[i], params, interval)
  }

  /** `after` is `before` with every missing step filled, and nothing else changed. */
  ghost predicate FilledTo(before: Expr, after: Expr, interval: int) {
    && after.(kids := []) == before.(kids := [],
         step := if !before.kind.SubqueryExpr? || before.step > 0 then before.step
                 else if interval > 0 then interval else 60_000)
    && |after.kids| == |before.kids|
    && forall i | 0 <= i < |before.kids| :: FilledTo(before.kids[i], after.kids[i], interval)
  }

  lemma {:induction false} FillIsExact(e: Expr, interval: int)
    ensures FilledTo(e, Fill(e, interval), interval)
  {
    forall i | 0 <= i < |e.kids| {
      FillIsExact(e.kids[i], interval);
    }
  }

  lemma {:induction false} PassesRewrite(e: Expr, params: EvalParams, interval: int)
    ensures RewrittenTo(e, Pad(Fill(Resolve(e, params), interval), CLICKHOUSE_RANGE_PADDING), params, interval)
  {
    forall i | 0 <= i < |e.kids| {
      PassesRewrite(e.kids[i], params, interval);
    }
  }

  /** The rewrite does exactly what it says, node by node; no token and no missing step is left. */
  lemma RewriteShape(e: Expr, params: EvalParams, interval: int)
    ensures RewrittenTo(e, Rewrite(e, params, interval), params, interval)
    ensures !ContainsStartEnd(Rewrite(e, params, interval)) && StepsGiven(Rewrite(e, params, interval))
  {
    ResolveIsComplete(e, params);
    PassesRewrite(e, params, interval);
    FillIsComplete(Resolve(e, params), interval);
    PadTouchesRangesOnly(Fill(Resolve(e, params), interval), CLICKHOUSE_RANGE_PADDING);
  }

  /** The rewrite preserves meaning: at every time, the rewritten tree under left-open windows, and
      under whatever bounds and default interval the remote evaluator has, means what the original
      means under closed windows with this request's bounds and default interval. */
  lemma RewriteKeepsMeaning(sem: Semantics, e: Expr, params: EvalParams, interval: int, remote: Evaluator, t: int)
    requires remote.leftOpen
    ensures Eval(sem, remote, Rewrite(e, params, interval), t) == Eval(sem, Evaluator(params, interval, false), e, t)
  {
    var ev := Evaluator(params, interval, false);
    var resolved := Resolve(e, params);
    ResolveIsComplete(e, params);
    ResolveKeepsMeaning(sem, ev, e, t);
    FillKeepsMeaning(sem, ev, resolved, t);
    PadClosesWindows(sem, ev, Fill(resolved, interval), t);
    RewriteShape(e, params, interval);
    SelfContained(sem, remote, ev.(leftOpen := true), Rewrite(e, params, interval), t);
  }

  // ---- The delegated and the local path of a subquery ------------------------------------

  /** The times at which a delegated subquery evaluates its child for outer time t: the multiples of
      its step in the padded left-open window. */
  ghost function DelegatedTimes(p: SubqueryPlan, t: int): iset<int> {
    GridTimes(Window(true, p.range + CLICKHOUSE_RANGE_PADDING, t - p.offset), EffectiveStep(p))
  }

  /** The times at which the local path does. */
  ghost function LocalTimes(p: SubqueryPlan, t: int): iset<int>
    requires p.range > 0
  {
    iset m | m in GridOf(ExecutionWindow(p, InstantAt(t)).value)
  }

  lemma DelegatedAddsTheBoundary(p: SubqueryPlan, t: int, m: int)
    requires p.range > 0 && p.timestamp.None? && p.token.NoToken?
    ensures m in DelegatedTimes(p, t) <==>
              m in LocalTimes(p, t) || (m == t - p.offset - p.range && m % EffectiveStep(p) == 0)
  {
    WindowHoldsMultiples(p, InstantAt(t));
  }

  /** The two paths of one subquery evaluate its child at the same times exactly when the start of the
      window is no multiple of the step; otherwise delegation adds that one point. */
  lemma SubqueryPathsAgreeExactly(p: SubqueryPlan, t: int)
    requires p.range > 0 && p.timestamp.None? && p.token.NoToken?
    ensures DelegatedTimes(p, t) == LocalTimes(p, t) <==> (t - p.offset - p.range) % EffectiveStep(p) != 0
    ensures (t - p.offset - p.range) % EffectiveStep(p) == 0 ==>
              DelegatedTimes(p, t) == LocalTimes(p, t) + iset{t - p.offset - p.range}
  {
    var boundary := t - p.offset - p.range;
    forall m
      ensures m in DelegatedTimes(p, t) <==> m in LocalTimes(p, t) || (m == boundary && m % EffectiveStep(p) == 0)
    {
      DelegatedAddsTheBoundary(p, t, m);
    }
    WindowHoldsMultiples(p, InstantAt(t));
    assert boundary !in LocalTimes(p, t);
  }
}
