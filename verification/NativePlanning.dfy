/** Building an execution plan from a logical plan: which nodes may become native subtrees, which
    of them carry the tag hint, and which operands are memoised. Whether a node can be lowered
    natively, or delegated, is an arbitrary oracle. */
module NativePlanning {
  import opened GoBasics
  import opened RangeChunks

  datatype Mode = Off | Explain | Shadow | Prefer | ForceSupported | LocalPushdown

  /** A mode string, already trimmed and in lower case; what is not a mode counts as prefer. */
  function NormalizeMode(raw: string): Mode {
    if raw == "off" then Off
    else if raw == "explain" then Explain
    else if raw == "shadow" then Shadow
    else if raw == "force_supported" then ForceSupported
    else if raw == "local_pushdown" then LocalPushdown
    else Prefer
  }

  datatype Kind =
    | Leaf | ScalarLiteral | ScalarBuiltin | Unary | Binary | Aggregation
    | HistogramQuantile | HistogramFraction | HistogramProjection | HistogramQuantiles
    | RangeFunction | Rate | Increase | Delta | Changes | Deriv | QuantileOverTime
    | Vector | Round | Sort | Info | ScalarConvert | PointwiseFunction
    | Absent | AbsentOverTime | Subquery | LabelReplace | LabelJoin
    | Unsupported

  /** A logical node: its children, its scalar parameter children (nil for a literal one), and the
      grouping of an aggregation. */
  datatype Logical = Logical(
    kind: Kind,
    text: string,
    grouping: seq<string>,
    without: bool,
    kids: seq<Logical>,
    params: seq<Option<Logical>>)

  /** The part of the plan context the planner itself reads and writes. */
  datatype PlanContext = PlanContext(mode: string, depth: nat, tagHint: bool, requiredLabels: seq<string>)

  predicate AllowsNativePlanning(ctx: PlanContext) {
    NormalizeMode(ctx.mode) != Off && (NormalizeMode(ctx.mode) == LocalPushdown ==> ctx.depth > 1)
  }

  predicate IsHistogram(kind: Kind) {
    kind == HistogramQuantile || kind == HistogramFraction || kind == HistogramProjection || kind == HistogramQuantiles
  }

  /** An aggregation by explicit labels, whose output the histogram renderer can narrow. */
  predicate Narrowable(node: Logical) {
    node.kind == Aggregation && !node.without && node.grouping != []
  }

  function HistogramChildContext(ctx: PlanContext, child: Logical): PlanContext {
    if NormalizeMode(ctx.mode) != LocalPushdown || !Narrowable(child) then ctx
    else ctx.(tagHint := true, requiredLabels := child.grouping)
  }

  function ClearTagHint(ctx: PlanContext): PlanContext {
    ctx.(tagHint := false, requiredLabels := [])
  }

  datatype NativeAnswer = Lowered | NotLowered | LoweringError(e: EvalError)

  datatype Oracles = Oracles(
    native: (Logical, PlanContext) -> NativeAnswer,
    delegable: (Logical, PlanContext) -> Option<EvalError>,
    memoDisabled: bool)

  datatype Plan =
    | Native(node: Logical, tagHint: bool, requiredLabels: seq<string>)
    | Delegated(text: string)
    | Local(kind: Kind, text: string, kids: seq<Plan>, params: seq<Option<Plan>>)
    | Memoized(expr: string, inner: Plan)
    | Chunked(points: int, child: Plan)

  predicate ShouldMemoize(o: Oracles, plan: Plan) {
    !o.memoDisabled && plan.Local? && (plan.kind == Rate || plan.kind == Increase || plan.kind == RangeFunction)
  }

  function Memoize(expr: string, plan: Plan): Plan {
    if expr == "" then plan else Memoized(expr, plan)
  }

  /** All results, or the first error. */
  function Gather<T>(results: seq<Result<T, EvalError>>): Result<seq<T>, EvalError> {
    if results == [] then Ok([])
    else if results[0].Err? then Err(results[0].error)
    else match Gather(results[1..])
      case Err(e) => Err(e)
      case Ok(rest) => Ok([results[0].value] + rest)
  }

  /** The context a node's child is planned in; `ctx` is the node's own. */
  function ChildContext(node: Logical, ctx: PlanContext, child: Logical): PlanContext {
    if node.kind == Aggregation then ClearTagHint(ctx)
    else if IsHistogram(node.kind) then HistogramChildContext(ctx, child)
    else ctx
  }

  /** The plan of a node that does not depend on its children's plans, if it has one. */
  function BuildDirectly(o: Oracles, node: Logical, ctx: PlanContext): Option<Result<Plan, EvalError>> {
    var mayTryNative := AllowsNativePlanning(ctx) && (node.kind == Leaf ==> NormalizeMode(ctx.mode) == ForceSupported);
    match if node.kind != Unsupported && mayTryNative then o.native(node, ctx) else NotLowered
    case LoweringError(e) => Some(Err(InContext("building native subtree plan", e)))
    case Lowered => Some(Ok(Native(node, ctx.tagHint, ctx.requiredLabels)))
    case NotLowered =>
      if node.kind == Unsupported then Some(Err(ExecutionError("execution planner cannot lower logical node")))
      else if node.kind != Leaf then None
      else if o.delegable(node, ctx).Some? then Some(Err(o.delegable(node, ctx).value))
      else Some(Ok(Delegated(node.text)))
  }

  function Build(o: Oracles, node: Logical, parentCtx: PlanContext): Result<Plan, EvalError>
    decreases node, 1
  {
    var ctx := parentCtx.(depth := parentCtx.depth + 1);
    if BuildDirectly(o, node, ctx).Some? then BuildDirectly(o, node, ctx).value
    else Assemble(o, node, BuildKids(o, node, ctx), BuildParams(o, node, ctx))
  }

  function BuildKids(o: Oracles, node: Logical, ctx: PlanContext): seq<Result<Plan, EvalError>>
    decreases node, 0
  {
    seq(|node.kids|, i requires 0 <= i < |node.kids| => Build(o, node.kids[i], ChildContext(node, ctx, node.kids[i])))
  }

  /** Only pointwise functions and histogram_quantiles have scalar parameter children. */
  function BuildParams(o: Oracles, node: Logical, ctx: PlanContext): seq<Result<Option<Plan>, EvalError>>
    decreases node, 0
  {
    if node.kind != PointwiseFunction && node.kind != HistogramQuantiles then []
    else
      seq(|node.params|, i requires 0 <= i < |node.params| =>
        if node.params[i].None? then Ok(None) else OfParam(Build(o, node.params[i].value, ctx)))
  }

  function OfParam(r: Result<Plan, EvalError>): Result<Option<Plan>, EvalError> {
    if r.Err? then Err(r.error) else Ok(Some(r.value))
  }

  /** The local node over its built children and parameters. */
  function Assemble(o: Oracles, node: Logical, kids: seq<Result<Plan, EvalError>>,
      params: seq<Result<Option<Plan>, EvalError>>)
      : Result<Plan, EvalError> {
    if Gather(kids).Err? then Err(InContext("building execution child plan", Gather(kids).error))
    else if Gather(params).Err? then Err(InContext("building execution scalar parameter plan", Gather(params).error))
    else Ok(Local(node.kind, node.text, MemoizedOperands(o, node, Gather(kids).value), Gather(params).value))
  }

  /** Equal operands of a binary node share one evaluation through the memo. */
  function MemoizedOperands(o: Oracles, node: Logical, kids: seq<Plan>): seq<Plan> {
    if node.kind == Binary && |kids| == 2 == |node.kids| && node.kids[0].text != ""
       && node.kids[0].text == node.kids[1].text
       && ShouldMemoize(o, kids[0]) && ShouldMemoize(o, kids[1])
    then [Memoize(node.kids[0].text, kids[0]), Memoize(node.kids[0].text, kids[1])]
    else kids
  }

  /** What the range strategy may do to a whole plan. */
  datatype RangeChoice = Keep | Chunk(points: int) | Reject(e: EvalError)

  /** The plan of a request: built from an empty context, then possibly chunked. */
  function BuildPlan(o: Oracles, root: Logical, mode: string, strategy: Plan -> RangeChoice): Result<Plan, EvalError> {
    match Build(o, root, PlanContext(mode, 0, false, []))
    case Err(e) => Err(e)
    case Ok(plan) =>
      match strategy(plan)
      case Keep => Ok(plan)
      case Chunk(points) => Ok(Chunked(points, plan))
      case Reject(e) => Err(InContext("applying range execution strategy", e))
  }

  // ---- What holds of every plan ---------------------------------------------------------

  lemma {:induction false} GatherAll<T>(results: seq<Result<T, EvalError>>)
    requires Gather(results).Ok?
    ensures |Gather(results).value| == |results|
    ensures forall i | 0 <= i < |results| :: results[i] == Ok(Gather(results).value[i])
  {
    if results != [] {
      GatherAll(results[1..]);
    }
  }

  /** The first error is the one reported. */
  lemma {:induction false} GatherReportsFirst<T>(results: seq<Result<T, EvalError>>, i: nat)
    requires i < |results| && results[i].Err? && forall j | 0 <= j < i :: results[j].Ok?
    ensures Gather(results) == Err(results[i].error)
  {
    if i > 0 {
      GatherReportsFirst(results[1..], i - 1);
    }
  }

  /** What may stand where in a plan built in a mode. `hinted` says that the plan is the immediate
      child of a local histogram node. */
  ghost predicate WellPlaced(plan: Plan, mode: Mode, hinted: bool) {
    match plan
    case Native(node, tagHint, labels) =>
      && mode != Off
      && (node.kind == Leaf ==> mode == ForceSupported)
      && (tagHint <==> hinted && mode == LocalPushdown && Narrowable(node))
      && labels == (if tagHint then node.grouping else [])
    case Delegated(_) => true
    case Local(kind, _, kids, params) =>
      && (forall i | 0 <= i < |kids| :: WellPlaced(kids[i], mode, IsHistogram(kind)))
      && (forall i | 0 <= i < |params| && params[i].Some? :: WellPlaced(params[i].value, mode, false))
    case Memoized(expr, inner) => inner.Local? && inner.text == expr && WellPlaced(inner, mode, hinted)
    case Chunked(_, child) => WellPlaced(child, mode, hinted)
  }

  /** The context says what a node at its place may get. */
  ghost predicate Fits(ctx: PlanContext, node: Logical, hinted: bool) {
    && (ctx.tagHint <==> hinted && NormalizeMode(ctx.mode) == LocalPushdown && Narrowable(node))
    && ctx.requiredLabels == (if ctx.tagHint then node.grouping else [])
  }

  lemma ChildFits(node: Logical, ctx: PlanContext, child: Logical, hinted: bool)
    requires Fits(ctx, node, hinted)
    ensures Fits(ChildContext(node, ctx, child), child, IsHistogram(node.kind))
  {
  }

  lemma ParamFits(node: Logical, ctx: PlanContext, param: Logical, hinted: bool)
    requires Fits(ctx, node, hinted) && node.kind != Aggregation
    ensures Fits(ctx, param, false)
  {
  }

  /** A result that is in its place and, if local, has its node's text. */
  ghost predicate Placed(r: Result<Plan, EvalError>, node: Logical, mode: Mode, hinted: bool) {
    r.Ok? ==> WellPlaced(r.value, mode, hinted) && (r.value.Local? ==> r.value.text == node.text)
  }

  ghost predicate ParamPlaced(r: Result<Option<Plan>, EvalError>, mode: Mode) {
    r.Ok? && r.value.Some? ==> WellPlaced(r.value.value, mode, false)
  }

  lemma OperandsArePlaced(o: Oracles, node: Logical, kids: seq<Plan>, mode: Mode)
    requires |kids| == |node.kids|
    requires forall i | 0 <= i < |kids| :: Placed(Ok(kids[i]), node.kids[i], mode, IsHistogram(node.kind))
    ensures var operands := MemoizedOperands(o, node, kids);
            forall i | 0 <= i < |operands| :: WellPlaced(operands[i], mode, IsHistogram(node.kind))
  {
    assert |kids| == 2 ==>
        && Placed(Ok(kids[0]), node.kids[0], mode, IsHistogram(node.kind))
        && Placed(Ok(kids[1]), node.kids[1], mode, IsHistogram(node.kind));
  }

  lemma AssembleIsPlaced(
      o: Oracles, node: Logical, kids: seq<Result<Plan, EvalError>>, params: seq<Result<Option<Plan>, EvalError>>,
      mode: Mode, hinted: bool)
    requires |kids| == |node.kids|
    requires forall i | 0 <= i < |kids| :: Placed(kids[i], node.kids[i], mode, IsHistogram(node.kind))
    requires forall i | 0 <= i < |params| :: ParamPlaced(params[i], mode)
    ensures Placed(Assemble(o, node, kids, params), node, mode, hinted)
  {
    if Gather(kids).Ok? && Gather(params).Ok? {
      GatherAll(kids);
      GatherAll(params);
      var plans := Gather(kids).value;
      forall i | 0 <= i < |plans|
        ensures Placed(Ok(plans[i]), node.kids[i], mode, IsHistogram(node.kind))
      {
        assert kids[i] == Ok(plans[i]);
      }
      OperandsArePlaced(o, node, plans, mode);
      forall i | 0 <= i < |params|
        ensures Gather(params).value[i].Some? ==> WellPlaced(Gather(params).value[i].value, mode, false)
      {
        assert ParamPlaced(params[i], mode);
      }
    }
  }

  lemma DirectIsPlaced(o: Oracles, node: Logical, ctx: PlanContext, hinted: bool)
    requires Fits(ctx, node, hinted) && BuildDirectly(o, node, ctx).Some?
    ensures Placed(BuildDirectly(o, node, ctx).value, node, NormalizeMode(ctx.mode), hinted)
  {
  }

  lemma {:induction false} BuildIsPlaced(o: Oracles, node: Logical, ctx: PlanContext, hinted: bool)
    requires Fits(ctx, node, hinted)
    ensures Placed(Build(o, node, ctx), node, NormalizeMode(ctx.mode), hinted)
    decreases node, 1
  {
    var inner := ctx.(depth := ctx.depth + 1);
    if BuildDirectly(o, node, inner).Some? {
      DirectIsPlaced(o, node, inner, hinted);
    } else {
      KidsArePlaced(o, node, inner, hinted);
      AssembleIsPlaced(o, node, BuildKids(o, node, inner), BuildParams(o, node, inner), NormalizeMode(ctx.mode),
          hinted);
    }
  }

  lemma {:induction false} KidsArePlaced(o: Oracles, node: Logical, ctx: PlanContext, hinted: bool)
    requires Fits(ctx, node, hinted)
    ensures forall i | 0 <= i < |node.kids| ::
        Placed(BuildKids(o, node, ctx)[i], node.kids[i], NormalizeMode(ctx.mode), IsHistogram(node.kind))
    ensures forall i | 0 <= i < |BuildParams(o, node, ctx)| ::
        ParamPlaced(BuildParams(o, node, ctx)[i], NormalizeMode(ctx.mode))
    decreases node, 0
  {
    forall i | 0 <= i < |node.kids|
      ensures Placed(BuildKids(o, node, ctx)[i], node.kids[i], NormalizeMode(ctx.mode), IsHistogram(node.kind))
    {
      ChildFits(node, ctx, node.kids[i], hinted);
      BuildIsPlaced(o, node.kids[i], ChildContext(node, ctx, node.kids[i]), IsHistogram(node.kind));
    }
    forall i | 0 <= i < |BuildParams(o, node, ctx)|
      ensures ParamPlaced(BuildParams(o, node, ctx)[i], NormalizeMode(ctx.mode))
    {
      if node.params[i].Some? {
        ParamFits(node, ctx, node.params[i].value, hinted);
        BuildIsPlaced(o, node.params[i].value, ctx, false);
      }
    }
  }

  /** For every logical tree, every oracle and every mode string: with mode off nothing is native;
      a leaf is native only in force_supported; the tag hint sits exactly on the native
      aggregations by explicit labels that are immediate children of a local histogram node in
      local_pushdown, carrying just those labels; and a memo node's text is its plan's own text. */
  lemma PlansAreWellPlaced(o: Oracles, root: Logical, mode: string, strategy: Plan -> RangeChoice)
    requires BuildPlan(o, root, mode, strategy).Ok?
    ensures WellPlaced(BuildPlan(o, root, mode, strategy).value, NormalizeMode(mode), false)
  {
    BuildIsPlaced(o, root, PlanContext(mode, 0, false, []), false);
  }

  ghost predicate HasNative(plan: Plan) {
    match plan
    case Native(_, _, _) => true
    case Delegated(_) => false
    case Local(_, _, kids, params) =>
      || (exists i :: 0 <= i < |kids| && HasNative(kids[i]))
      || (exists i :: 0 <= i < |params| && params[i].Some? && HasNative(params[i].value))
    case Memoized(_, inner) => HasNative(inner)
    case Chunked(_, child) => HasNative(child)
  }

  lemma {:induction false} WellPlacedOffIsLocal(plan: Plan, hinted: bool)
    requires WellPlaced(plan, Off, hinted)
    ensures !HasNative(plan)
  {
    match plan
    case Local(kind, _, kids, params) =>
      forall i | 0 <= i < |kids| {
        WellPlacedOffIsLocal(kids[i], IsHistogram(kind));
      }
      forall i | 0 <= i < |params| && params[i].Some? {
        WellPlacedOffIsLocal(params[i].value, false);
      }
    case Memoized(_, inner) => WellPlacedOffIsLocal(inner, hinted);
    case Chunked(_, child) => WellPlacedOffIsLocal(child, hinted);
    case _ =>
  }

  lemma OffMeansNoNativeAnywhere(o: Oracles, root: Logical, strategy: Plan -> RangeChoice)
    requires BuildPlan(o, root, "off", strategy).Ok?
    ensures !HasNative(BuildPlan(o, root, "off", strategy).value)
  {
    PlansAreWellPlaced(o, root, "off", strategy);
    WellPlacedOffIsLocal(BuildPlan(o, root, "off", strategy).value, false);
  }

  /** The plan under a possible chunk wrapper. */
  function RootOf(plan: Plan): Plan {
    if plan.Chunked? then RootOf(plan.child) else plan
  }

  /** Exactly which roots are native: those the oracle lowers, in a mode that is neither off nor
      local_pushdown, and for a leaf only in force_supported. */
  lemma RootIsNativeExactly(o: Oracles, root: Logical, mode: string, strategy: Plan -> RangeChoice)
    requires BuildPlan(o, root, mode, strategy).Ok?
    ensures RootOf(BuildPlan(o, root, mode, strategy).value).Native? <==>
              && NormalizeMode(mode) != Off && NormalizeMode(mode) != LocalPushdown
              && root.kind != Unsupported && (root.kind == Leaf ==> NormalizeMode(mode) == ForceSupported)
              && o.native(root, PlanContext(mode, 1, false, [])).Lowered?
  {
    var ctx := PlanContext(mode, 0, false, []);
    assert ctx.(depth := ctx.depth + 1) == PlanContext(mode, 1, false, []);
    var plan := Build(o, root, ctx).value;
    assert plan.Native? || plan.Delegated? || plan.Local?;
  }
}
