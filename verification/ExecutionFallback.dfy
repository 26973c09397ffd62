/** The one-shot fallback from a failed native execution to full local execution. */
module ExecutionFallback {
  import opened GoBasics
  import opened NativePlanning
  import opened ErrorAlgebra

  type Value = real

  datatype ExplainNode = ExplainNode(strategy: string, children: seq<ExplainNode>)

  predicate IsClickHouseSideStrategy(strategy: string) {
    || strategy == "native_sql" || strategy == "native_sql_expression"
    || strategy == "delegated_promql" || strategy == "chunked_native"
  }

  /** Some node of the tree runs on the ClickHouse side. */
  ghost predicate ClickHouseSide(node: ExplainNode) {
    IsClickHouseSideStrategy(node.strategy) || exists i :: 0 <= i < |node.children| && ClickHouseSide(node.children[i])
  }

  method ExplainHasClickHouseSideNode(node: ExplainNode) returns (found: bool)
    ensures found == ClickHouseSide(node)
  {
    if IsClickHouseSideStrategy(node.strategy) {
      return true;
    }
    for i := 0 to |node.children|
      invariant forall j | 0 <= j < i :: !ClickHouseSide(node.children[j])
    {
      var below := ExplainHasClickHouseSideNode(node.children[i]);
      if below {
        return true;
      }
    }
    return false;
  }

  predicate AdaptiveMode(mode: string) {
    NormalizeMode(mode) == Prefer || NormalizeMode(mode) == Explain
  }

  /** The strategies that run on the ClickHouse side, by their names; chunked local execution, an empty
      strategy and anything unknown do not. A mode is adaptive unless it is one of the four that are not. */
  lemma StrategiesAndModesByName(strategy: string, mode: string)
    ensures IsClickHouseSideStrategy(strategy) <==>
              strategy in {"native_sql", "native_sql_expression", "delegated_promql", "chunked_native"}
    ensures !IsClickHouseSideStrategy("local") && !IsClickHouseSideStrategy("chunked_local")
    ensures !IsClickHouseSideStrategy("")
    ensures AdaptiveMode(mode) <==> mode !in {"off", "shadow", "force_supported", "local_pushdown"}
  {
    assert strategy == "local" || strategy == "chunked_local" || strategy == "" ==> !IsClickHouseSideStrategy(strategy);
  }

  /** A tree whose nodes are all local is never a candidate, and one node is enough. */
  lemma {:induction false} ClickHouseSideByName(node: ExplainNode)
    ensures ClickHouseSide(node) <==>
              || node.strategy in {"native_sql", "native_sql_expression", "delegated_promql", "chunked_native"}
              || exists i :: 0 <= i < |node.children| && ClickHouseSide(node.children[i])
  {
    StrategiesAndModesByName(node.strategy, "");
  }

  /** When a failed evaluation may be retried locally. */
  ghost predicate MayRetry(mode: string, explain: ExplainNode, ctxAlive: bool, e: Err) {
    AdaptiveMode(mode) && ClickHouseSide(explain) && FallbackEligible(e) && ctxAlive
  }

  function ServedErrorAfterLocalFailure(nativeErr: Err, localErr: Err): APIError {
    if FallbackEligible(localErr) then ToAPIError(localErr) else ToAPIError(nativeErr)
  }

  /** What the fallback tells its caller: nothing applies, a value, or an error to serve. */
  datatype FallbackResult = NoFallback | Served(value: Value) | Failed(api: APIError)

  /** The request evaluator's answers, in the order in which it is asked: the chosen plan, then the
      full-local plan. `localPlanBuilds` says whether the latter can be built. Every answer to an
      evaluation comes wrapped in the evaluator's context. */
  class Evaluations {
    const first: Result<Value, Err>
    const second: Result<Value, Err>
    const localPlanBuilds: bool
    var runs: nat

    constructor (first: Result<Value, Err>, second: Result<Value, Err>, localPlanBuilds: bool)
      ensures this.first == first && this.second == second && this.localPlanBuilds == localPlanBuilds && runs == 0
    {
      this.first, this.second, this.localPlanBuilds, runs := first, second, localPlanBuilds, 0;
    }

    method Evaluate() returns (r: Result<Value, Err>)
      modifies this
      ensures runs == old(runs) + 1
      ensures r == InMode(if old(runs) == 0 then first else second)
    {
      runs := runs + 1;
      r := InMode(if runs == 1 then first else second);
    }
  }

  function InMode(r: Result<Value, Err>): Result<Value, Err> {
    match r
    case Ok(v) => Ok(v)
    case Err(e) => Err(WithInternalContext(e, "evaluating query plan"))
  }

  method ExecutionFallback(ev: Evaluations, mode: string, explain: ExplainNode, ctxAlive: bool, evalErr: Err)
    returns (r: FallbackResult)
    requires ev.runs == 1
    modifies ev
    ensures !MayRetry(mode, explain, ctxAlive, evalErr) || !ev.localPlanBuilds ==> r == NoFallback && ev.runs == 1
    ensures MayRetry(mode, explain, ctxAlive, evalErr) && ev.localPlanBuilds ==>
              && ev.runs == 2
              && r == match InMode(ev.second)
                      case Ok(v) => Served(v)
                      case Err(e) => Failed(ServedErrorAfterLocalFailure(evalErr, e))
  {
    var clickHouse := ExplainHasClickHouseSideNode(explain);
    if !(AdaptiveMode(mode) && clickHouse && FallbackEligible(evalErr) && ctxAlive) {
      return NoFallback;
    }
    if !ev.localPlanBuilds {
      return NoFallback;
    }
    var value := ev.Evaluate();
    if value.Err? {
      return Failed(ServedErrorAfterLocalFailure(evalErr, value.error));
    }
    return Served(value.value);
  }

  /** The evaluation part of InstantQuery and RangeQuery. In every case: at most one retry, and one
      only for an execution failure, not a cancellation, of a tree with a ClickHouse-side node in an
      adaptive mode while the request is alive; the retry's value is served if it has one; a failure
      after a retry, or where only the local plan was missing, answers 502; any other failure
      answers by its own class. */
  method Query(ev: Evaluations, mode: string, explain: ExplainNode, ctxAlive: bool) returns (r: Result<Value, APIError>)
    requires ev.runs == 0
    modifies ev
    ensures 1 <= ev.runs <= 2
    ensures ev.first.Ok? ==> ev.runs == 1 && r == Ok(ev.first.value)
    ensures ev.first.Err? ==>
              (ev.runs == 2 <==>
                 && mode !in {"off", "shadow", "force_supported", "local_pushdown"}
                 && ClickHouseSide(explain) && FallbackEligible(ev.first.error) && ctxAlive && ev.localPlanBuilds)
    ensures ev.first.Err? ==> (r.Ok? <==> ev.runs == 2 && ev.second.Ok?)
    ensures ev.runs == 2 && ev.second.Ok? ==> r == Ok(ev.second.value)
    ensures ev.first.Err? && r.Err? ==>
              r.error.statusCode == if MayRetry(mode, explain, ctxAlive, ev.first.error) then 502
                                    else ToAPIError(ev.first.error).statusCode
    ensures ev.runs == 2 && ev.second.Err? && FallbackEligible(ev.second.error) ==>
              r == Err(ToAPIError(WithInternalContext(ev.second.error, "evaluating query plan")))
    ensures r.Err? && (ev.runs == 1 || !FallbackEligible(ev.second.error)) ==>
              r.error == ToAPIError(WithInternalContext(ev.first.error, "evaluating query plan"))
  {
    var value := ev.Evaluate();
    if value.Ok? {
      return Ok(value.value);
    }
    OneContextKeepsTheClass(ev.first.error);
    StrategiesAndModesByName("", mode);
    if ev.second.Err? {
      OneContextKeepsTheClass(ev.second.error);
    }
    var fallback := ExecutionFallback(ev, mode, explain, ctxAlive, value.error);
    match fallback {
      case Failed(api) => return Err(api);
      case NoFallback => return Err(ToAPIError(value.error));
      case Served(v) => return Ok(v);
    }
  }

  lemma OneContextKeepsTheClass(e: Err)
    ensures var w := WithInternalContext(e, "evaluating query plan");
            && FallbackEligible(w) == FallbackEligible(e)
            && ToAPIError(w).statusCode == ToAPIError(e).statusCode
            && (FallbackEligible(e) ==> ToAPIError(w).statusCode == 502)
  {
    var contexts := ["evaluating query plan"];
    assert contexts[..0] == [];
    ContextsKeepTheClass(e, contexts);
    EligibleAnswers502(e);
  }

  // ---- Reporting what was served --------------------------------------------------------

  const FULL_LOCAL := "full_local"

  datatype Candidate = Candidate(id: string, strict: bool, selected: bool, served: bool)

  datatype CandidateDecision = CandidateDecision(strictCandidate: string, selectedCandidate: string,
      servedCandidate: string)

  class RoutingReport {
    var decision: Option<CandidateDecision>
    const candidates: array<Candidate>

    constructor (decision: Option<CandidateDecision>, candidates: array<Candidate>)
      ensures this.decision == decision && this.candidates == candidates
    {
      this.decision, this.candidates := decision, candidates;
    }
  }

  /** After a fallback the report names full local execution, and exactly its candidates, as served;
      the decision that was made before is left as it was. */
  method MarkRoutingServedLocal(routing: RoutingReport)
    modifies routing, routing.candidates
    ensures old(routing.decision).None? ==>
              routing.decision == None && routing.candidates[..] == old(routing.candidates[..])
    ensures old(routing.decision).Some? ==>
              && routing.decision == Some(old(routing.decision).value.(servedCandidate := FULL_LOCAL))
              && forall i | 0 <= i < routing.candidates.Length ::
                   routing.candidates[i]
                   == old(routing.candidates[i]).(served := old(routing.candidates[i]).id == FULL_LOCAL)
  {
    if routing.decision.None? {
      return;
    }
    routing.decision := Some(routing.decision.value.(servedCandidate := FULL_LOCAL));
    var candidates := routing.candidates;
    for i := 0 to candidates.Length
      invariant routing.decision == Some(old(routing.decision).value.(servedCandidate := FULL_LOCAL))
      invariant forall j | 0 <= j < i ::
                  candidates[j] == old(candidates[j]).(served := old(candidates[j]).id == FULL_LOCAL)
      invariant forall j | i <= j < candidates.Length :: candidates[j] == old(candidates[j])
    {
      candidates[i] := candidates[i].(served := candidates[i].id == FULL_LOCAL);
    }
  }
}
