/** The two compare-and-swap loops of the seeder under any number of concurrent callers:
    `suppressRampUntil`, which keeps the latest deadline, and `regulatorBaseline.observe`, which
    keeps the smallest positive latency. One atomic load or compare-and-swap is one step. */
module CasRegisters {
  import opened GoBasics

  datatype Register = Deadline | Baseline

  /** Whether `offered` replaces `cur`. A baseline of 0 means nothing was observed yet. */
  predicate Better(r: Register, offered: int, cur: int) {
    match r
    case Deadline => offered > cur
    case Baseline => offered > 0 && (cur == 0 || offered < cur)
  }

  datatype CallPc = Idle | Entered(request: int) | Loaded(request: int, cur: int)

  datatype State = State(value: int, calls: seq<CallPc>, requested: set<int>, completed: set<int>)

  datatype Event = Call(t: nat, request: int) | Load(t: nat) | CompareAndSwap(t: nat)

  predicate Enabled(s: State, e: Event) {
    && e.t < |s.calls|
    && match e
       case Call(t, _) => s.calls[t].Idle?
       case Load(t) => s.calls[t].Entered?
       case CompareAndSwap(t) => s.calls[t].Loaded?
  }

  function Finish(s: State, t: nat): State
    requires t < |s.calls| && !s.calls[t].Idle?
  {
    s.(calls := s.calls[t := Idle], completed := s.completed + {s.calls[t].request})
  }

  /** A load that finds nothing to improve returns; a swap that finds another value than the
      loaded one goes round again. */
  function Step(r: Register, s: State, e: Event): State
    requires Enabled(s, e)
  {
    match e
    case Call(t, request) => s.(calls := s.calls[t := Entered(request)], requested := s.requested + {request})
    case Load(t) =>
      var request := s.calls[t].request;
      if Better(r, request, s.value) then s.(calls := s.calls[t := Loaded(request, s.value)]) else Finish(s, t)
    case CompareAndSwap(t) =>
      var request := s.calls[t].request;
      if s.value == s.calls[t].cur then Finish(s, t).(value := request)
      else s.(calls := s.calls[t := Entered(request)])
  }

  ghost predicate Invariant(r: Register, initial: int, s: State) {
    && (s.value == initial || (s.value in s.requested && Better(r, s.value, initial)))
    && (forall d | d in s.completed :: !Better(r, d, s.value))
    && (forall t | 0 <= t < |s.calls| && !s.calls[t].Idle? :: s.calls[t].request in s.requested)
    && (forall t | 0 <= t < |s.calls| && s.calls[t].Loaded? ::
          && Better(r, s.calls[t].request, s.calls[t].cur)
          && (s.value == s.calls[t].cur || Better(r, s.value, s.calls[t].cur)))
    && (forall d | d in s.requested ::
          d in s.completed || exists t :: 0 <= t < |s.calls| && !s.calls[t].Idle? && s.calls[t].request == d)
  }

  /** A step never makes the value worse, and keeps everything above. */
  lemma StepKeepsInvariant(r: Register, initial: int, s: State, e: Event)
    requires Enabled(s, e) && Invariant(r, initial, s)
    ensures Invariant(r, initial, Step(r, s, e))
    ensures Step(r, s, e).value == s.value || Better(r, Step(r, s, e).value, s.value)
  {
    var s' := Step(r, s, e);
    forall d | d in s'.requested
      ensures d in s'.completed || exists t :: 0 <= t < |s'.calls| && !s'.calls[t].Idle? && s'.calls[t].request == d
    {
      if d in s.requested && d !in s.completed {
        var t :| 0 <= t < |s.calls| && !s.calls[t].Idle? && s.calls[t].request == d;
        assert t == e.t || s'.calls[t] == s.calls[t];
        assert t == e.t ==> d in s'.completed || s'.calls[t].request == d;
      } else if d !in s.requested {
        assert s'.calls[e.t].request == d;
      }
    }
  }

  ghost function After(r: Register, initial: int, threads: nat, events: seq<Event>): Option<State> {
    if events == [] then Some(State(initial, seq(threads, _ => Idle), {}, {}))
    else
      var before := After(r, initial, threads, events[..|events| - 1]);
      var e := events[|events| - 1];
      if before.Some? && Enabled(before.value, e) then Some(Step(r, before.value, e)) else None
  }

  lemma {:induction false} EveryRunKeepsTheInvariant(r: Register, initial: int, threads: nat, events: seq<Event>)
    requires After(r, initial, threads, events).Some?
    ensures Invariant(r, initial, After(r, initial, threads, events).value)
  {
    if events != [] {
      var before := events[..|events| - 1];
      EveryRunKeepsTheInvariant(r, initial, threads, before);
      StepKeepsInvariant(r, initial, After(r, initial, threads, before).value, events[|events| - 1]);
    }
  }

  /** rampUpFreeze is a max register: along any run it never decreases, it is at least the deadline
      of every completed call, it always is the initial value or a requested deadline, and once no
      call is pending it is the maximum of them all. */
  lemma FreezeIsAMaxRegister(initial: int, threads: nat, earlier: seq<Event>, later: seq<Event>)
    requires After(Deadline, initial, threads, earlier + later).Some?
    ensures After(Deadline, initial, threads, earlier).Some?
    ensures var s := After(Deadline, initial, threads, earlier + later).value;
            && After(Deadline, initial, threads, earlier).value.value <= s.value
            && (forall d | d in s.completed :: d <= s.value)
            && (s.value == initial || s.value in s.requested) && initial <= s.value
            && ((forall t | 0 <= t < |s.calls| :: s.calls[t].Idle?) ==> forall d | d in s.requested :: d <= s.value)
  {
    ValueOnlyImproves(Deadline, initial, threads, earlier, later);
    EveryRunKeepsTheInvariant(Deadline, initial, threads, earlier + later);
  }

  /** The baseline is a min register over the positive observations. */
  lemma BaselineIsAMinRegister(threads: nat, earlier: seq<Event>, later: seq<Event>)
    requires After(Baseline, 0, threads, earlier + later).Some?
    ensures After(Baseline, 0, threads, earlier).Some?
    ensures var was := After(Baseline, 0, threads, earlier).value;
            var s := After(Baseline, 0, threads, earlier + later).value;
            && (was.value != 0 ==> 0 < s.value <= was.value)
            && (forall d | d in s.completed && d > 0 :: 0 < s.value <= d)
            && (s.value == 0 || s.value in s.requested)
  {
    ValueOnlyImproves(Baseline, 0, threads, earlier, later);
    EveryRunKeepsTheInvariant(Baseline, 0, threads, earlier + later);
    EveryRunKeepsTheInvariant(Baseline, 0, threads, earlier);
  }

  lemma {:induction false} ValueOnlyImproves(r: Register, initial: int, threads: nat, earlier: seq<Event>,
      later: seq<Event>)
    requires After(r, initial, threads, earlier + later).Some?
    ensures After(r, initial, threads, earlier).Some?
    ensures var was := After(r, initial, threads, earlier).value.value;
            var now := After(r, initial, threads, earlier + later).value.value;
            now == was || Better(r, now, was)
    decreases |later|
  {
    if later == [] {
      assert earlier + later == earlier;
    } else {
      var front := later[..|later| - 1];
      assert (earlier + later)[..|earlier + later| - 1] == earlier + front;
      ValueOnlyImproves(r, initial, threads, earlier, front);
      EveryRunKeepsTheInvariant(r, initial, threads, earlier + front);
      StepKeepsInvariant(r, initial, After(r, initial, threads, earlier + front).value, later[|later| - 1]);
    }
  }
}
