/** Errors and their classes: normalisation, context wrapping, HTTP status, and which errors allow a
    local retry. */
module ErrorAlgebra {
  import opened GoBasics

  datatype Kind = BadDataKind | UnsupportedKind | ExecutionKind

  /** The error values that reach the evaluator. Promshim, Contextual and BuildFailure carry a kind
      of their own; Query is ClickHouse's error and wraps nothing; Wrapped is a foreign error around
      another, Foreign one around nothing. */
  datatype Err =
    | Promshim(kind: Kind, message: string, cause: Option<Err>)
    | Contextual(kind: Kind, context: string, inner: Err)
    | BuildFailure(message: string, userMessage: string)
    | Query(errorType: string, message: string)
    | Canceled
    | DeadlineExceeded
    | Wrapped(message: string, inner: Err)
    | Foreign(message: string)

  function Unwrap(e: Err): (next: Option<Err>)
    ensures next.Some? ==> next.value < e
  {
    match e
    case Promshim(_, _, cause) => cause
    case Contextual(_, _, inner) => Some(inner)
    case Wrapped(_, inner) => Some(inner)
    case _ => None
  }

  function Text(e: Err): string {
    match e
    case Promshim(_, message, _) => message
    case Contextual(_, context, inner) => context + ": " + Text(inner)
    case BuildFailure(message, _) => message
    case Query(errorType, message) => errorType + ": " + message
    case Canceled => "context canceled"
    case DeadlineExceeded => "context deadline exceeded"
    case Wrapped(message, _) => message
    case Foreign(message) => message
  }

  /** The kind of the first error of the chain that has one. */
  function FirstKind(e: Err): Option<Kind> {
    match e
    case Promshim(kind, _, _) => Some(kind)
    case Contextual(kind, _, _) => Some(kind)
    case BuildFailure(_, _) => Some(UnsupportedKind)
    case _ => if Unwrap(e).Some? then FirstKind(Unwrap(e).value) else None
  }

  function KindOf(e: Err): Kind {
    if FirstKind(e).Some? then FirstKind(e).value else ExecutionKind
  }

  predicate IsCancellation(e: Err) {
    e.Canceled? || e.DeadlineExceeded? || (Unwrap(e).Some? && IsCancellation(Unwrap(e).value))
  }

  predicate Contains(s: string, part: string) {
    part <= s || (s != "" && Contains(s[1..], part))
  }

  const DUPLICATE_SERIES := "found duplicate series for the match group on the "
  const MANY_TO_ONE := "multiple matches for labels: many-to-one matching must be explicit (group_left/group_right)"

  function NormalizeQuery(errorType: string, message: string): Err {
    if Contains(message, DUPLICATE_SERIES) then Promshim(BadDataKind, MANY_TO_ONE, None)
    else if errorType == "bad_data" then Promshim(BadDataKind, message, None)
    else if errorType == "unsupported" then Promshim(UnsupportedKind, message, None)
    else Promshim(ExecutionKind, message, None)
  }

  function Normalize(e: Err): Err {
    if FirstKind(e).Some? then e
    else if e.Query? then NormalizeQuery(e.errorType, e.message)
    else Promshim(ExecutionKind, Text(e), Some(e))
  }

  function WithInternalContext(e: Err, context: string): Err {
    Contextual(KindOf(Normalize(e)), context, Normalize(e))
  }

  /** Wrapped again and again, the last context outermost. */
  function WithContexts(e: Err, contexts: seq<string>): Err {
    if contexts == [] then e
    else WithInternalContext(WithContexts(e, contexts[..|contexts| - 1]), contexts[|contexts| - 1])
  }

  predicate FallbackEligible(e: Err) {
    !IsCancellation(e) && KindOf(Normalize(e)) == ExecutionKind
  }

  // ---- What clients see -----------------------------------------------------------------

  datatype APIError = APIError(statusCode: int, errorType: string, error: string)

  function StatusOf(kind: Kind): int {
    match kind
    case BadDataKind => 400
    case UnsupportedKind => 422
    case ExecutionKind => 502
  }

  function KindName(kind: Kind): string {
    match kind
    case BadDataKind => "bad_data"
    case UnsupportedKind => "unsupported"
    case ExecutionKind => "execution"
  }

  /** The user message of the first build failure of the chain. */
  function FirstBuildMessage(e: Err): Option<string> {
    if e.BuildFailure? then Some(e.userMessage)
    else if Unwrap(e).Some? then FirstBuildMessage(Unwrap(e).value) else None
  }

  function RootOf(e: Err): Err {
    if Unwrap(e).Some? then RootOf(Unwrap(e).value) else e
  }

  /** The small unwrapping loop. */
  method FindRoot(e: Err) returns (root: Err)
    ensures root == RootOf(e)
  {
    root := e;
    while Unwrap(root).Some?
      invariant RootOf(root) == RootOf(e)
      decreases root
    {
      root := Unwrap(root).value;
    }
  }

  function UserFacingMessage(e: Err): string {
    var n := Normalize(e);
    if KindOf(n) == ExecutionKind then Text(n)
    else if FirstBuildMessage(n).Some? then FirstBuildMessage(n).value
    else Text(RootOf(n))
  }

  function ToAPIError(e: Err): APIError {
    var kind := KindOf(Normalize(e));
    APIError(StatusOf(kind), KindName(kind), UserFacingMessage(e))
  }

  // ---- Laws -----------------------------------------------------------------------------

  /** Normalising is idempotent and keeps the cancellation identity of every chain; its kind is the
      first kind of the chain, or what ClickHouse said, or execution. */
  lemma NormalizeLaws(e: Err)
    ensures FirstKind(Normalize(e)).Some? && Normalize(Normalize(e)) == Normalize(e)
    ensures IsCancellation(Normalize(e)) == IsCancellation(e)
    ensures KindOf(Normalize(e)) == BadDataKind <==>
              || FirstKind(e) == Some(BadDataKind)
              || (e.Query? && (e.errorType == "bad_data" || Contains(e.message, DUPLICATE_SERIES)))
    ensures KindOf(Normalize(e)) == UnsupportedKind <==>
              || FirstKind(e) == Some(UnsupportedKind)
              || (e.Query? && e.errorType == "unsupported" && !Contains(e.message, DUPLICATE_SERIES))
  {
  }

  /** A message behind its contexts, outermost first. */
  function Prefixed(contexts: seq<string>, message: string): string {
    if contexts == [] then message
    else contexts[|contexts| - 1] + ": " + Prefixed(contexts[..|contexts| - 1], message)
  }

  /** At any depth of wrapping an error keeps its kind, its status, its cancellation identity and
      its eligibility for a retry. A client error even keeps its message; an execution error gains
      exactly its contexts. */
  lemma {:induction false} ContextsKeepTheClass(e: Err, contexts: seq<string>)
    ensures var w := WithContexts(e, contexts);
            && KindOf(Normalize(w)) == KindOf(Normalize(e))
            && ToAPIError(w).statusCode == ToAPIError(e).statusCode
            && ToAPIError(w).errorType == ToAPIError(e).errorType
            && IsCancellation(w) == IsCancellation(e)
            && FallbackEligible(w) == FallbackEligible(e)
            && Text(Normalize(w)) == Prefixed(contexts, Text(Normalize(e)))
            && FirstBuildMessage(Normalize(w)) == FirstBuildMessage(Normalize(e))
            && RootOf(Normalize(w)) == RootOf(Normalize(e))
  {
    if contexts != [] {
      var inner := WithContexts(e, contexts[..|contexts| - 1]);
      ContextsKeepTheClass(e, contexts[..|contexts| - 1]);
      NormalizeLaws(inner);
    }
  }

  lemma ContextsKeepTheMessage(e: Err, contexts: seq<string>)
    ensures UserFacingMessage(WithContexts(e, contexts))
            == if KindOf(Normalize(e)) == ExecutionKind then Prefixed(contexts, UserFacingMessage(e))
               else UserFacingMessage(e)
  {
    ContextsKeepTheClass(e, contexts);
  }

  /** An eligible error answers 502, a client error never does. */
  lemma EligibleAnswers502(e: Err)
    ensures FallbackEligible(e) ==> ToAPIError(e).statusCode == 502
    ensures ToAPIError(e).statusCode == 502 && !IsCancellation(e) ==> FallbackEligible(e)
  {
  }

  // ---- The table clients rely on --------------------------------------------------------

  /** What the chain says: bad data, unsupported, or neither. ClickHouse's own errors are read off their
      type, and a duplicate series in a vector match is bad data whatever the type. */
  predicate SaysBadData(e: Err) {
    FirstKind(e) == Some(BadDataKind)
    || (e.Query? && (e.errorType == "bad_data" || Contains(e.message, DUPLICATE_SERIES)))
  }

  predicate SaysUnsupported(e: Err) {
    FirstKind(e) == Some(UnsupportedKind)
    || (e.Query? && e.errorType == "unsupported" && !Contains(e.message, DUPLICATE_SERIES))
  }

  /** Every error answers 400 bad_data, 422 unsupported or 502 execution, by what its chain says, at any
      depth of contexts; a retry is allowed exactly for the last, unless it is a cancellation. */
  lemma StatusTable(e: Err, contexts: seq<string>)
    ensures var api := ToAPIError(WithContexts(e, contexts));
            && (api.statusCode == 400 && api.errorType == "bad_data" <==> SaysBadData(e))
            && (api.statusCode == 422 && api.errorType == "unsupported" <==> SaysUnsupported(e))
            && (api.statusCode == 502 && api.errorType == "execution" <==> !SaysBadData(e) && !SaysUnsupported(e))
    ensures FallbackEligible(WithContexts(e, contexts)) <==>
              !IsCancellation(e) && !SaysBadData(e) && !SaysUnsupported(e)
  {
    ContextsKeepTheClass(e, contexts);
    NormalizeLaws(e);
  }

  /** What a client reads, at any depth of contexts: the message of a bad-data error, the user message of
      a build failure, and ClickHouse's message for what ClickHouse calls bad data. */
  lemma ClientMessages(message: string, userMessage: string, contexts: seq<string>)
    ensures UserFacingMessage(WithContexts(Promshim(BadDataKind, message, None), contexts)) == message
    ensures UserFacingMessage(WithContexts(Promshim(UnsupportedKind, message, None), contexts)) == message
    ensures UserFacingMessage(WithContexts(BuildFailure(message, userMessage), contexts)) == userMessage
    ensures Text(BuildFailure(message, userMessage)) == message
    ensures !Contains(message, DUPLICATE_SERIES) ==>
              UserFacingMessage(WithContexts(Query("bad_data", message), contexts)) == message
    ensures UserFacingMessage(WithContexts(Promshim(ExecutionKind, message, None), contexts))
            == Prefixed(contexts, message)
  {
    ContextsKeepTheMessage(Promshim(BadDataKind, message, None), contexts);
    ContextsKeepTheMessage(Promshim(UnsupportedKind, message, None), contexts);
    ContextsKeepTheMessage(BuildFailure(message, userMessage), contexts);
    ContextsKeepTheMessage(Query("bad_data", message), contexts);
    ContextsKeepTheMessage(Promshim(ExecutionKind, message, None), contexts);
  }

  /** What a client reads for an error that is not of the service: its own words behind the contexts. A
      duplicate series is reported in words of the service's own. */
  lemma ForeignMessages(errorType: string, message: string, inner: Err, contexts: seq<string>)
    requires errorType != "bad_data" && errorType != "unsupported" && FirstKind(inner).None?
    ensures UserFacingMessage(WithContexts(Canceled, contexts)) == Prefixed(contexts, "context canceled")
    ensures UserFacingMessage(WithContexts(DeadlineExceeded, contexts))
            == Prefixed(contexts, "context deadline exceeded")
    ensures UserFacingMessage(WithContexts(Foreign(message), contexts)) == Prefixed(contexts, message)
    ensures UserFacingMessage(WithContexts(Wrapped(message, inner), contexts)) == Prefixed(contexts, message)
    ensures UserFacingMessage(WithContexts(Query(errorType, message), contexts))
            == if Contains(message, DUPLICATE_SERIES) then MANY_TO_ONE else Prefixed(contexts, message)
    ensures Text(Query(errorType, message)) == errorType + ": " + message
  {
    ContextsKeepTheMessage(Canceled, contexts);
    ContextsKeepTheMessage(DeadlineExceeded, contexts);
    ContextsKeepTheMessage(Foreign(message), contexts);
    ContextsKeepTheMessage(Wrapped(message, inner), contexts);
    ContextsKeepTheMessage(Query(errorType, message), contexts);
  }

  /** A part is contained exactly if it stands somewhere. */
  lemma {:induction false} ContainsExactly(s: string, part: string)
    ensures Contains(s, part) <==> exists before, after :: s == before + part + after
  {
    if part <= s {
      assert s == [] + part + s[|part|..];
    } else if s != "" {
      ContainsExactly(s[1..], part);
      if Contains(s[1..], part) {
        var before, after :| s[1..] == before + part + after;
        assert s == [s[0]] + before + part + after;
      }
      forall before, after | s == before + part + after ensures Contains(s[1..], part) {
        assert before != [];
        assert s[1..] == before[1..] + part + after;
      }
    }
  }

  /** A cancellation or an expired deadline is never retried, and stays one through any contexts and any
      foreign wrapper. */
  lemma CancellationsAreNeverRetried(e: Err, outer: string, contexts: seq<string>)
    requires e.Canceled? || e.DeadlineExceeded?
    ensures !FallbackEligible(WithContexts(e, contexts)) && !FallbackEligible(WithContexts(Wrapped(outer, e), contexts))
  {
    ContextsKeepTheClass(e, contexts);
    ContextsKeepTheClass(Wrapped(outer, e), contexts);
  }
}
