/** What a built plan looks like, node by node, from the logical tree, the mode and the oracles alone. */
module PlanShape {
  import opened GoBasics
  import opened RangeChunks
  import opened NativePlanning

  /** A plan without the memo node it may stand under. */
  function Unwrapped(plan: Plan): Plan {
    if plan.Memoized? then plan.inner else plan
  }

  /** The context a node is planned in, at a depth, below a local histogram node or not. */
  function ContextAt(raw: string, node: Logical, depth: nat, hinted: bool): PlanContext {
    var hint := hinted && NormalizeMode(raw) == LocalPushdown
                && node.kind == Aggregation && !node.without && node.grouping != [];
    PlanContext(raw, depth, hint, if hint then node.grouping else [])
  }

  /** Whether native lowering is attempted at all. */
  predicate TriesNative(raw: string, node: Logical, depth: nat) {
    && node.kind != Unsupported
    && NormalizeMode(raw) != Off
    && (NormalizeMode(raw) == LocalPushdown ==> depth > 1)
    && (node.kind == Leaf ==> NormalizeMode(raw) == ForceSupported)
  }

  predicate Repeatable(plan: Plan) {
    plan.Local? && (plan.kind == Rate || plan.kind == Increase || plan.kind == RangeFunction)
  }

  /** Both operands of a binary node have the same text and are repeatable range functions. */
  predicate SharesOperands(o: Oracles, node: Logical, kids: seq<Plan>) {
    && !o.memoDisabled && node.kind == Binary && |kids| == |node.kids| == 2
    && node.kids[0].text == node.kids[1].text != ""
    && Repeatable(Unwrapped(kids[0])) && Repeatable(Unwrapped(kids[1]))
  }

  /** `plan` is the plan of `node`: native if it is tried and lowered; else, for a leaf, delegated; else
      local, over the plans of its children in their order and the plans of its parameters. Children
      stand under a memo node of their text exactly if they are shared operands. */
  ghost predicate Mirrors(o: Oracles, raw: string, plan: Plan, node: Logical, depth: nat, hinted: bool)
    decreases node
  {
    var ctx := ContextAt(raw, node, depth, hinted);
    if TriesNative(raw, node, depth) && o.native(node, ctx).Lowered? then
      plan == Native(node, ctx.tagHint, ctx.requiredLabels)
    else
      && node.kind != Unsupported
      && (TriesNative(raw, node, depth) ==> o.native(node, ctx).NotLowered?)
      && if node.kind == Leaf then plan == Delegated(node.text) && o.delegable(node, ctx).None?
         else
           && plan.Local? && plan.kind == node.kind && plan.text == node.text
           && KidsMirror(o, raw, plan.kids, node, depth)
           && ParamsMirror(o, raw, plan.params, node, depth)
  }

  ghost predicate KidsMirror(o: Oracles, raw: string, kids: seq<Plan>, node: Logical, depth: nat)
    decreases node, 0
  {
    && |kids| == |node.kids|
    && forall i | 0 <= i < |kids| ::
         && kids[i] == (if SharesOperands(o, node, kids) then Memoized(node.kids[i].text, Unwrapped(kids[i]))
                        else Unwrapped(kids[i]))
         && Mirrors(o, raw, Unwrapped(kids[i]), node.kids[i], depth + 1,
                    node.kind == HistogramQuantile || node.kind == HistogramFraction
                    || node.kind == HistogramProjection || node.kind == HistogramQuantiles)
  }

  ghost predicate ParamsMirror(o: Oracles, raw: string, params: seq<Option<Plan>>, node: Logical, depth: nat)
    decreases node, 0
  {
    if node.kind != PointwiseFunction && node.kind != HistogramQuantiles then params == []
    else
      && |params| == |node.params|
      && forall i | 0 <= i < |params| ::
           && (params[i].None? <==> node.params[i].None?)
           && (params[i].Some? ==> Mirrors(o, raw, params[i].value, node.params[i].value, depth + 1, false))
  }

  /** A successful build mirrors its node, without a wrapper of its own. */
  ghost predicate BuiltRight(
      o: Oracles, raw: string, r: Result<Plan, EvalError>, node: Logical, depth: nat, hinted: bool)
  {
    r.Ok? ==> Mirrors(o, raw, r.value, node, depth, hinted) && !r.value.Memoized? && !r.value.Chunked?
  }

  lemma DirectlyRight(o: Oracles, node: Logical, ctx: PlanContext, hinted: bool)
    requires Fits(ctx, node, hinted) && BuildDirectly(o, node, ctx).Some?
    ensures BuiltRight(o, ctx.mode, BuildDirectly(o, node, ctx).value, node, ctx.depth, hinted)
  {
    assert ctx == ContextAt(ctx.mode, node, ctx.depth, hinted);
  }

  lemma OperandsMirror(o: Oracles, raw: string, kids: seq<Plan>, node: Logical, depth: nat)
    requires |kids| == |node.kids|
    requires forall i | 0 <= i < |kids| ::
               BuiltRight(o, raw, Ok(kids[i]), node.kids[i], depth + 1, IsHistogram(node.kind))
    ensures KidsMirror(o, raw, MemoizedOperands(o, node, kids), node, depth)
  {
    var operands := MemoizedOperands(o, node, kids);
    forall i | 0 <= i < |kids|
      ensures Unwrapped(operands[i]) == kids[i]
      ensures Mirrors(o, raw, kids[i], node.kids[i], depth + 1, IsHistogram(node.kind))
    {
      assert BuiltRight(o, raw, Ok(kids[i]), node.kids[i], depth + 1, IsHistogram(node.kind));
    }
  }

  lemma AssembledRight(o: Oracles, node: Logical, ctx: PlanContext, hinted: bool)
    requires Fits(ctx, node, hinted) && BuildDirectly(o, node, ctx).None?
    requires forall i | 0 <= i < |node.kids| ::
               BuiltRight(o, ctx.mode, BuildKids(o, node, ctx)[i], node.kids[i], ctx.depth + 1, IsHistogram(node.kind))
    requires ParamsBuiltRight(o, node, ctx)
    ensures var r := Assemble(o, node, BuildKids(o, node, ctx), BuildParams(o, node, ctx));
            BuiltRight(o, ctx.mode, r, node, ctx.depth, hinted)
  {
    assert ctx == ContextAt(ctx.mode, node, ctx.depth, hinted);
    var kids, params := BuildKids(o, node, ctx), BuildParams(o, node, ctx);
    if Gather(kids).Ok? && Gather(params).Ok? {
      GatherAll(kids);
      GatherAll(params);
      var plans := Gather(kids).value;
      forall i | 0 <= i < |plans|
        ensures BuiltRight(o, ctx.mode, Ok(plans[i]), node.kids[i], ctx.depth + 1, IsHistogram(node.kind))
      {
        assert kids[i] == Ok(plans[i]);
      }
      OperandsMirror(o, ctx.mode, plans, node, ctx.depth);
      GatheredParamsMirror(o, node, ctx);
    }
  }

  ghost predicate ParamsBuiltRight(o: Oracles, node: Logical, ctx: PlanContext) {
    forall i | 0 <= i < |BuildParams(o, node, ctx)| && node.params[i].Some? && BuildParams(o, node, ctx)[i].Ok? ::
      && BuildParams(o, node, ctx)[i].value.Some?
      && Mirrors(o, ctx.mode, BuildParams(o, node, ctx)[i].value.value, node.params[i].value, ctx.depth + 1, false)
  }

  lemma GatheredParamsMirror(o: Oracles, node: Logical, ctx: PlanContext)
    requires ParamsBuiltRight(o, node, ctx) && Gather(BuildParams(o, node, ctx)).Ok?
    ensures ParamsMirror(o, ctx.mode, Gather(BuildParams(o, node, ctx)).value, node, ctx.depth)
  {
    GatherAll(BuildParams(o, node, ctx));
    var params := Gather(BuildParams(o, node, ctx)).value;
    forall i | 0 <= i < |params|
      ensures params[i].None? <==> node.params[i].None?
      ensures params[i].Some? ==> Mirrors(o, ctx.mode, params[i].value, node.params[i].value, ctx.depth + 1, false)
    {
      assert BuildParams(o, node, ctx)[i] == Ok(params[i]);
    }
  }

  lemma {:induction false} BuildIsRight(o: Oracles, node: Logical, parentCtx: PlanContext, hinted: bool)
    requires Fits(parentCtx, node, hinted)
    ensures BuiltRight(o, parentCtx.mode, Build(o, node, parentCtx), node, parentCtx.depth + 1, hinted)
    decreases node
  {
    var ctx := parentCtx.(depth := parentCtx.depth + 1);
    if BuildDirectly(o, node, ctx).Some? {
      DirectlyRight(o, node, ctx, hinted);
    } else {
      forall i | 0 <= i < |node.kids|
        ensures BuiltRight(o, ctx.mode, BuildKids(o, node, ctx)[i], node.kids[i], ctx.depth + 1, IsHistogram(node.kind))
      {
        ChildFits(node, ctx, node.kids[i], hinted);
        BuildIsRight(o, node.kids[i], ChildContext(node, ctx, node.kids[i]), IsHistogram(node.kind));
      }
      forall i | 0 <= i < |BuildParams(o, node, ctx)| && node.params[i].Some?
        ensures BuiltRight(o, ctx.mode, Build(o, node.params[i].value, ctx), node.params[i].value, ctx.depth + 1, false)
      {
        ParamFits(node, ctx, node.params[i].value, hinted);
        BuildIsRight(o, node.params[i].value, ctx, false);
      }
      AssembledRight(o, node, ctx, hinted);
    }
  }

  /** For every logical tree, every oracle, every mode string and every range strategy: a plan that is
      built mirrors its tree, every child in its place, below at most the one chunk wrapper that the
      strategy asked for. */
  lemma PlansMirrorTheirTrees(o: Oracles, root: Logical, mode: string, strategy: Plan -> RangeChoice)
    requires BuildPlan(o, root, mode, strategy).Ok?
    ensures var plan := BuildPlan(o, root, mode, strategy).value;
            var whole := if plan.Chunked? then plan.child else plan;
            && Mirrors(o, mode, whole, root, 1, false)
            && strategy(whole) == if plan.Chunked? then Chunk(plan.points) else Keep
  {
    BuildIsRight(o, root, PlanContext(mode, 0, false, []), false);
  }

  // ---- Which trees have a plan ----------------------------------------------------------

  /** A node can be planned if it is lowered, or else can be delegated if it is a leaf, or else has a local
      form and children and parameters that can be planned; an error of the lowering is final. */
  ghost predicate Buildable(o: Oracles, raw: string, node: Logical, depth: nat, hinted: bool)
    decreases node, 1
  {
    var tried := TriesNative(raw, node, depth);
    var answer := o.native(node, ContextAt(raw, node, depth, hinted));
    || (tried && answer.Lowered?)
    || (node.kind != Unsupported && (tried ==> answer.NotLowered?)
        && if node.kind == Leaf then o.delegable(node, ContextAt(raw, node, depth, hinted)).None?
           else KidsBuildable(o, raw, node, depth) && ParamsBuildable(o, raw, node, depth))
  }

  ghost predicate KidsBuildable(o: Oracles, raw: string, node: Logical, depth: nat)
    decreases node, 0
  {
    forall i | 0 <= i < |node.kids| ::
      Buildable(o, raw, node.kids[i], depth + 1,
                node.kind == HistogramQuantile || node.kind == HistogramFraction
                || node.kind == HistogramProjection || node.kind == HistogramQuantiles)
  }

  ghost predicate ParamsBuildable(o: Oracles, raw: string, node: Logical, depth: nat)
    decreases node, 0
  {
    node.kind == PointwiseFunction || node.kind == HistogramQuantiles ==>
      forall i | 0 <= i < |node.params| && node.params[i].Some? ::
        Buildable(o, raw, node.params[i].value, depth + 1, false)
  }

  lemma DirectlyBuildable(o: Oracles, node: Logical, ctx: PlanContext, hinted: bool)
    requires Fits(ctx, node, hinted) && BuildDirectly(o, node, ctx).Some?
    ensures BuildDirectly(o, node, ctx).value.Ok? <==> Buildable(o, ctx.mode, node, ctx.depth, hinted)
  {
    assert ctx == ContextAt(ctx.mode, node, ctx.depth, hinted);
  }

  lemma {:induction false} GatherSucceeds<T>(results: seq<Result<T, EvalError>>)
    ensures Gather(results).Ok? <==> forall i | 0 <= i < |results| :: results[i].Ok?
  {
    if results != [] {
      GatherSucceeds(results[1..]);
      assert forall i | 1 <= i < |results| :: results[i] == results[1..][i - 1];
    }
  }

  lemma KidsGathered(o: Oracles, node: Logical, ctx: PlanContext)
    requires forall i | 0 <= i < |node.kids| ::
               BuildKids(o, node, ctx)[i].Ok? <==>
                 Buildable(o, ctx.mode, node.kids[i], ctx.depth + 1, IsHistogram(node.kind))
    ensures Gather(BuildKids(o, node, ctx)).Ok? <==> KidsBuildable(o, ctx.mode, node, ctx.depth)
  {
    GatherSucceeds(BuildKids(o, node, ctx));
  }

  lemma ParamsGathered(o: Oracles, node: Logical, ctx: PlanContext)
    requires node.kind == PointwiseFunction || node.kind == HistogramQuantiles ==>
               forall i | 0 <= i < |node.params| && node.params[i].Some? ::
                 Build(o, node.params[i].value, ctx).Ok? <==>
                   Buildable(o, ctx.mode, node.params[i].value, ctx.depth + 1, false)
    ensures Gather(BuildParams(o, node, ctx)).Ok? <==> ParamsBuildable(o, ctx.mode, node, ctx.depth)
  {
    var params := BuildParams(o, node, ctx);
    GatherSucceeds(params);
    if node.kind == PointwiseFunction || node.kind == HistogramQuantiles {
      assert forall i | 0 <= i < |params| ::
          params[i].Ok? <==> node.params[i].None? || Build(o, node.params[i].value, ctx).Ok?;
    }
  }

  lemma AssembledBuildable(o: Oracles, node: Logical, ctx: PlanContext, hinted: bool)
    requires Fits(ctx, node, hinted) && BuildDirectly(o, node, ctx).None?
    ensures Buildable(o, ctx.mode, node, ctx.depth, hinted) <==>
              KidsBuildable(o, ctx.mode, node, ctx.depth) && ParamsBuildable(o, ctx.mode, node, ctx.depth)
  {
    assert ctx == ContextAt(ctx.mode, node, ctx.depth, hinted);
  }

  lemma {:induction false} KidsBuildExactly(o: Oracles, node: Logical, ctx: PlanContext, hinted: bool)
    requires Fits(ctx, node, hinted)
    ensures Gather(BuildKids(o, node, ctx)).Ok? <==> KidsBuildable(o, ctx.mode, node, ctx.depth)
    decreases node, 0
  {
    forall i | 0 <= i < |node.kids|
      ensures BuildKids(o, node, ctx)[i].Ok? <==>
                Buildable(o, ctx.mode, node.kids[i], ctx.depth + 1, IsHistogram(node.kind))
    {
      ChildFits(node, ctx, node.kids[i], hinted);
      BuildsExactly(o, node.kids[i], ChildContext(node, ctx, node.kids[i]), IsHistogram(node.kind));
    }
    KidsGathered(o, node, ctx);
  }

  lemma {:induction false} ParamsBuildExactly(o: Oracles, node: Logical, ctx: PlanContext, hinted: bool)
    requires Fits(ctx, node, hinted)
    ensures Gather(BuildParams(o, node, ctx)).Ok? <==> ParamsBuildable(o, ctx.mode, node, ctx.depth)
    decreases node, 0
  {
    if node.kind == PointwiseFunction || node.kind == HistogramQuantiles {
      forall i | 0 <= i < |node.params| && node.params[i].Some?
        ensures Build(o, node.params[i].value, ctx).Ok? <==>
                  Buildable(o, ctx.mode, node.params[i].value, ctx.depth + 1, false)
      {
        ParamFits(node, ctx, node.params[i].value, hinted);
        BuildsExactly(o, node.params[i].value, ctx, false);
      }
    }
    ParamsGathered(o, node, ctx);
  }

  lemma {:induction false} BuildsExactly(o: Oracles, node: Logical, parentCtx: PlanContext, hinted: bool)
    requires Fits(parentCtx, node, hinted)
    ensures Build(o, node, parentCtx).Ok? <==> Buildable(o, parentCtx.mode, node, parentCtx.depth + 1, hinted)
    decreases node, 1
  {
    var ctx := parentCtx.(depth := parentCtx.depth + 1);
    if BuildDirectly(o, node, ctx).Some? {
      DirectlyBuildable(o, node, ctx, hinted);
    } else {
      KidsBuildExactly(o, node, ctx, hinted);
      ParamsBuildExactly(o, node, ctx, hinted);
      AssembledBuildable(o, node, ctx, hinted);
    }
  }

  /** A request has a plan exactly if its tree can be planned and the range strategy does not refuse what
      was planned for it. */
  lemma PlansExactly(o: Oracles, root: Logical, mode: string, strategy: Plan -> RangeChoice)
    ensures BuildPlan(o, root, mode, strategy).Ok? ==> Buildable(o, mode, root, 1, false)
    ensures Buildable(o, mode, root, 1, false) && BuildPlan(o, root, mode, strategy).Err? ==>
              exists plan :: && Mirrors(o, mode, plan, root, 1, false) && strategy(plan).Reject?
                             && BuildPlan(o, root, mode, strategy)
                                == Err(InContext("applying range execution strategy", strategy(plan).e))
  {
    var ctx := PlanContext(mode, 0, false, []);
    BuildsExactly(o, root, ctx, false);
    BuildIsRight(o, root, ctx, false);
    if Build(o, root, ctx).Ok? {
      assert Mirrors(o, mode, Build(o, root, ctx).value, root, 1, false);
    }
  }

  /** The first child that cannot be planned decides the error of a local node. */
  lemma FirstChildDecides(o: Oracles, node: Logical, kids: seq<Result<Plan, EvalError>>,
      params: seq<Result<Option<Plan>, EvalError>>, i: nat)
    requires i < |kids| && kids[i].Err? && forall j | 0 <= j < i :: kids[j].Ok?
    ensures Assemble(o, node, kids, params) == Err(InContext("building execution child plan", kids[i].error))
  {
    GatherReportsFirst(kids, i);
  }

  /** If every child can be planned, the first parameter that cannot does. */
  lemma FirstParamDecides(o: Oracles, node: Logical, kids: seq<Result<Plan, EvalError>>,
      params: seq<Result<Option<Plan>, EvalError>>, i: nat)
    requires forall j | 0 <= j < |kids| :: kids[j].Ok?
    requires i < |params| && params[i].Err? && forall j | 0 <= j < i :: params[j].Ok?
    ensures Assemble(o, node, kids, params)
            == Err(InContext("building execution scalar parameter plan", params[i].error))
  {
    GatherSucceeds(kids);
    GatherReportsFirst(params, i);
  }

  /** The failures that arise at the root itself, each under its context. */
  lemma RootFailures(o: Oracles, root: Logical, mode: string, strategy: Plan -> RangeChoice, e: EvalError)
    ensures root.kind == Unsupported ==>
              BuildPlan(o, root, mode, strategy) == Err(ExecutionError("execution planner cannot lower logical node"))
    ensures mode !in {"off", "local_pushdown"} && root.kind != Unsupported
            && (root.kind == Leaf ==> mode == "force_supported")
            && o.native(root, PlanContext(mode, 1, false, [])) == LoweringError(e) ==>
              BuildPlan(o, root, mode, strategy) == Err(InContext("building native subtree plan", e))
    ensures root.kind == Leaf && mode != "force_supported" ==>
              match o.delegable(root, PlanContext(mode, 1, false, []))
              case Some(refused) => BuildPlan(o, root, mode, strategy) == Err(refused)
              case None =>
                strategy(Delegated(root.text)) == Reject(e) ==>
                  BuildPlan(o, root, mode, strategy) == Err(InContext("applying range execution strategy", e))
  {
    ModesByName(mode);
  }

  /** The modes by their names. */
  lemma ModesByName(raw: string)
    ensures NormalizeMode(raw) == Off <==> raw == "off"
    ensures NormalizeMode(raw) == Explain <==> raw == "explain"
    ensures NormalizeMode(raw) == Shadow <==> raw == "shadow"
    ensures NormalizeMode(raw) == ForceSupported <==> raw == "force_supported"
    ensures NormalizeMode(raw) == LocalPushdown <==> raw == "local_pushdown"
    ensures NormalizeMode(raw) == Prefer <==> raw !in {"off", "explain", "shadow", "force_supported", "local_pushdown"}
  {
  }
}
