/** Recording-rule reload under any number of concurrent callers: a double-checked deadline around
    a mutex. Each atomic load or store, lock, unlock and file load is one step. Times are integer
    nanoseconds; a registry is opaque. */
module RuleReload {
  import opened GoBasics

  type Registry = int

  datatype Config = Config(virtualMode: bool, hasFiles: bool, interval: int)

  /** Whether a next reload is ever scheduled. */
  predicate Active(cfg: Config) {
    cfg.virtualMode && cfg.hasFiles && cfg.interval > 0
  }

  /** Where a caller of maybeReloadRecordingRules is; `now` is the time it was called with. */
  datatype Pc =
    | Outside
    | FirstCheck(now: int)
    | Waiting(now: int)
    | SecondCheck(now: int)
    | Loading(now: int)
    | Storing(now: int, loaded: Registry)
    | CountingSuccess(now: int)
    | CountingError(now: int)
    | Scheduling(now: int)
    | Unlocking

  predicate HoldsLock(pc: Pc) {
    !(pc.Outside? || pc.FirstCheck? || pc.Waiting?)
  }

  /** Between loading the files and scheduling the next reload. */
  predicate Reloaded(pc: Pc) {
    pc.Storing? || pc.CountingSuccess? || pc.CountingError? || pc.Scheduling?
  }

  /** The shared fields, the callers, and the history: the times of the loads (the first is that of
      the load at start-up) and their outcomes. */
  datatype State = State(
    next: int,
    registry: Registry,
    successes: int,
    errors: int,
    locked: Option<nat>,
    callers: seq<Pc>,
    loadTimes: seq<int>,
    outcomes: seq<Option<Registry>>)

  datatype Event =
    | Enter(t: nat, now: int)
    | Advance(t: nat)
    | LoadFiles(t: nat, outcome: Option<Registry>)

  function ScheduledNext(cfg: Config, now: int, next: int): int {
    if Active(cfg) then now + cfg.interval else next
  }

  /** The service as built at time `start`. */
  function Init(cfg: Config, start: int, initial: Registry, callers: nat): State {
    State(ScheduledNext(cfg, start, 0), initial, 0, 0, None, seq(callers, _ => Outside), [start], [])
  }

  predicate Due(next: int, now: int) {
    !(next == 0 || now < next)
  }

  predicate Enabled(s: State, e: Event) {
    && e.t < |s.callers|
    && match e
       case Enter(t, _) => s.callers[t].Outside?
       case LoadFiles(t, _) => s.callers[t].Loading?
       case Advance(t) => !s.callers[t].Outside? && !s.callers[t].Loading? && (s.callers[t].Waiting? ==> s.locked.None?)
  }

  function MovePc(s: State, pc: Pc): Pc {
    match pc
    case FirstCheck(now) => if Due(s.next, now) then Waiting(now) else Outside
    case Waiting(now) => SecondCheck(now)
    case SecondCheck(now) => if Due(s.next, now) then Loading(now) else Unlocking
    case Storing(now, _) => CountingSuccess(now)
    case CountingSuccess(now) => Scheduling(now)
    case CountingError(now) => Scheduling(now)
    case Scheduling(_) => Unlocking
    case Unlocking => Outside
    case _ => pc
  }

  function Step(cfg: Config, s: State, e: Event): State
    requires Enabled(s, e)
  {
    var pc := s.callers[e.t];
    match e
    case Enter(t, now) => s.(callers := s.callers[t := FirstCheck(now)])
    case LoadFiles(t, outcome) =>
      s.(callers := s.callers[t := if outcome.Some? then Storing(pc.now, outcome.value) else CountingError(pc.now)],
         loadTimes := s.loadTimes + [pc.now],
         outcomes := s.outcomes + [outcome])
    case Advance(t) =>
      s.(callers := s.callers[t := MovePc(s, pc)],
         next := if pc.Scheduling? then ScheduledNext(cfg, pc.now, s.next) else s.next,
         registry := if pc.Storing? then pc.loaded else s.registry,
         successes := if pc.CountingSuccess? then s.successes + 1 else s.successes,
         errors := if pc.CountingError? then s.errors + 1 else s.errors,
         locked := if pc.Waiting? then Some(t) else if pc.Unlocking? then None else s.locked)
  }

  /** The state after a run of events, if every event was enabled. */
  function After(cfg: Config, start: int, initial: Registry, callers: nat, events: seq<Event>): Option<State> {
    if events == [] then Some(Init(cfg, start, initial, callers))
    else
      var before := After(cfg, start, initial, callers, events[..|events| - 1]);
      var e := events[|events| - 1];
      if before.Some? && Enabled(before.value, e) then Some(Step(cfg, before.value, e)) else None
  }

  // ---- What holds in every state --------------------------------------------------------

  /** The registry of the last load that succeeded, or the one from start-up. */
  function LastGood(initial: Registry, outcomes: seq<Option<Registry>>): Registry {
    if outcomes == [] then initial
    else if outcomes[|outcomes| - 1].Some? then outcomes[|outcomes| - 1].value
    else LastGood(initial, outcomes[..|outcomes| - 1])
  }

  function Count(outcomes: seq<Option<Registry>>, good: bool): nat {
    if outcomes == [] then 0
    else Count(outcomes[..|outcomes| - 1], good) + if outcomes[|outcomes| - 1].Some? == good then 1 else 0
  }

  ghost predicate Spaced(times: seq<int>, interval: int) {
    forall i | 0 <= i < |times| - 1 :: times[i + 1] >= times[i] + interval
  }

  /** At most one caller is inside the lock, and the lock knows which. */
  ghost predicate Exclusive(s: State) {
    forall t | 0 <= t < |s.callers| :: HoldsLock(s.callers[t]) <==> s.locked == Some(t)
  }

  function HolderPc(s: State): Pc {
    if s.locked.Some? && s.locked.value < |s.callers| then s.callers[s.locked.value] else Outside
  }

  /** The deadline is one interval after the last load, except while the holder is between its load
      and its scheduling; and a holder about to load has seen that deadline pass. */
  ghost predicate Deadline(cfg: Config, s: State) {
    var pc := HolderPc(s);
    && |s.loadTimes| > 0
    && var last := s.loadTimes[|s.loadTimes| - 1];
       && (Reloaded(pc) ==> Active(cfg) && pc.now == last && s.next <= last)
       && (!Reloaded(pc) ==> s.next == if Active(cfg) then last + cfg.interval else 0)
       && (pc.Loading? ==> Active(cfg) && pc.now >= last + cfg.interval)
  }

  /** The visible registry and the counters lag the outcomes by the holder's pending store and
      count. */
  ghost predicate Visible(initial: Registry, s: State) {
    var pc, n := HolderPc(s), |s.outcomes|;
    && (pc.Storing? ==> n > 0 && s.outcomes[n - 1] == Some(pc.loaded))
    && (pc.CountingSuccess? ==> n > 0 && s.outcomes[n - 1].Some?)
    && (pc.CountingError? ==> n > 0 && s.outcomes[n - 1].None?)
    && s.registry == LastGood(initial, if pc.Storing? then s.outcomes[..n - 1] else s.outcomes)
    && s.successes + (if pc.Storing? || pc.CountingSuccess? then 1 else 0) == Count(s.outcomes, true)
    && s.errors + (if pc.CountingError? then 1 else 0) == Count(s.outcomes, false)
  }

  ghost predicate Invariant(cfg: Config, initial: Registry, s: State) {
    && Exclusive(s) && Deadline(cfg, s) && Visible(initial, s)
    && Spaced(s.loadTimes, cfg.interval)
    && (!Active(cfg) ==> |s.loadTimes| == 1)
    && |s.outcomes| == |s.loadTimes| - 1
  }

  lemma StepKeepsExclusive(cfg: Config, s: State, e: Event)
    requires Enabled(s, e) && Exclusive(s)
    ensures Exclusive(Step(cfg, s, e))
  {
  }

  /** What a step does to the holder. */
  lemma HolderAfter(cfg: Config, s: State, e: Event)
    requires Enabled(s, e) && Exclusive(s)
    ensures HoldsLock(s.callers[e.t]) && !s.callers[e.t].Unlocking? ==>
              HolderPc(s) == s.callers[e.t] && HolderPc(Step(cfg, s, e)) == Step(cfg, s, e).callers[e.t]
    ensures !HoldsLock(s.callers[e.t]) && !(e.Advance? && s.callers[e.t].Waiting?) ==>
              HolderPc(Step(cfg, s, e)) == HolderPc(s)
    ensures s.callers[e.t].Unlocking? ==> HolderPc(s) == Unlocking && HolderPc(Step(cfg, s, e)) == Outside
    ensures e.Advance? && s.callers[e.t].Waiting? ==> HolderPc(s) == Outside && HolderPc(Step(cfg, s, e)).SecondCheck?
  {
  }

  lemma StepKeepsDeadline(cfg: Config, s: State, e: Event)
    requires Enabled(s, e) && Exclusive(s) && Deadline(cfg, s)
    ensures Deadline(cfg, Step(cfg, s, e))
  {
    HolderAfter(cfg, s, e);
  }

  lemma StepKeepsVisible(cfg: Config, initial: Registry, s: State, e: Event)
    requires Enabled(s, e) && Exclusive(s) && Visible(initial, s)
    ensures Visible(initial, Step(cfg, s, e))
  {
    HolderAfter(cfg, s, e);
    if e.LoadFiles? {
      assert (s.outcomes + [e.outcome])[..|s.outcomes|] == s.outcomes;
    }
  }

  lemma StepKeepsInvariant(cfg: Config, initial: Registry, s: State, e: Event)
    requires Enabled(s, e) && Invariant(cfg, initial, s)
    ensures Invariant(cfg, initial, Step(cfg, s, e))
  {
    StepKeepsExclusive(cfg, s, e);
    StepKeepsDeadline(cfg, s, e);
    StepKeepsVisible(cfg, initial, s, e);
    HolderAfter(cfg, s, e);
  }

  lemma {:induction false} EveryRunKeepsTheInvariant(cfg: Config, start: int, initial: Registry, callers: nat,
      events: seq<Event>)
    requires After(cfg, start, initial, callers, events).Some?
    ensures Invariant(cfg, initial, After(cfg, start, initial, callers, events).value)
  {
    if events != [] {
      var before := events[..|events| - 1];
      EveryRunKeepsTheInvariant(cfg, start, initial, callers, before);
      StepKeepsInvariant(cfg, initial, After(cfg, start, initial, callers, before).value, events[|events| - 1]);
    }
  }

  lemma {:induction false} LastGoodIsSomeOutcome(initial: Registry, outcomes: seq<Option<Registry>>)
    ensures LastGood(initial, outcomes) == initial || Some(LastGood(initial, outcomes)) in outcomes
  {
    if outcomes != [] {
      LastGoodIsSomeOutcome(initial, outcomes[..|outcomes| - 1]);
    }
  }

  /** In every run, for any number of callers: successive loads are at least an interval of caller
      time apart, counting from the load at start-up; the visible registry is the initial one or one
      that loaded, and with nobody inside the lock it is the last one that loaded; a failed load
      leaves it alone; and without a schedule nothing is ever loaded. */
  lemma ReloadsAreSpacedAndSafe(cfg: Config, start: int, initial: Registry, callers: nat, events: seq<Event>)
    requires After(cfg, start, initial, callers, events).Some?
    ensures var s := After(cfg, start, initial, callers, events).value;
            && Spaced(s.loadTimes, cfg.interval)
            && (s.registry == initial || Some(s.registry) in s.outcomes)
            && (s.locked.None? ==>
                  && s.registry == LastGood(initial, s.outcomes)
                  && s.successes == Count(s.outcomes, true) && s.errors == Count(s.outcomes, false))
            && (!Active(cfg) ==> s.outcomes == [] && s.registry == initial)
            && (forall i, j | 0 <= i < j < |s.callers| :: !(HoldsLock(s.callers[i]) && HoldsLock(s.callers[j])))
  {
    EveryRunKeepsTheInvariant(cfg, start, initial, callers, events);
    var s := After(cfg, start, initial, callers, events).value;
    var shown := if HolderPc(s).Storing? then s.outcomes[..|s.outcomes| - 1] else s.outcomes;
    LastGoodIsSomeOutcome(initial, shown);
    assert forall o | o in shown :: o in s.outcomes;
  }

  // ---- Progress -------------------------------------------------------------------------

  function LastLoad(s: State): int
    requires |s.loadTimes| > 0
  {
    s.loadTimes[|s.loadTimes| - 1]
  }

  /** Where a call stands that was due at the deadline `due`: before its own decision it is still
      late enough, and once it is past it a load at or after the deadline has happened. Until such a
      load the deadline is the one the call saw. */
  ghost predicate Served(s: State, t: nat, due: int)
    requires t < |s.callers| && |s.loadTimes| > 0
  {
    var pc := s.callers[t];
    && (LastLoad(s) >= due || s.next == due != 0)
    && (if pc.FirstCheck? || pc.Waiting? || pc.SecondCheck? || pc.Loading? then pc.now >= due else LastLoad(s) >= due)
  }

  lemma ServedKept(cfg: Config, initial: Registry, s: State, e: Event, t: nat, due: int)
    requires Enabled(s, e) && Invariant(cfg, initial, s) && t < |s.callers| && Served(s, t, due)
    requires e.t == t ==> !e.Enter? && !s.callers[t].FirstCheck?
    ensures Served(Step(cfg, s, e), t, due)
  {
    HolderAfter(cfg, s, e);
  }

  /** The events of a call after its first check, up to its return: it does not enter again. */
  predicate WithinOneCall(events: seq<Event>, t: nat) {
    forall i | 0 <= i < |events| :: !(events[i].Enter? && events[i].t == t)
  }

  lemma {:induction false} ServedAlong(
      cfg: Config, start: int, initial: Registry, callers: nat, earlier: seq<Event>, later: seq<Event>, t: nat,
      due: int)
    requires After(cfg, start, initial, callers, earlier).Some?
    requires After(cfg, start, initial, callers, earlier + later).Some?
    requires var s := After(cfg, start, initial, callers, earlier).value;
             && t < |s.callers| && |s.loadTimes| > 0 && Served(s, t, due) && !s.callers[t].FirstCheck?
    requires WithinOneCall(later, t)
    ensures var s := After(cfg, start, initial, callers, earlier + later).value;
            && t < |s.callers| && |s.loadTimes| > 0 && Served(s, t, due) && !s.callers[t].FirstCheck?
    decreases |later|
  {
    if later == [] {
      assert earlier + later == earlier;
    } else {
      var front, e := later[..|later| - 1], later[|later| - 1];
      assert (earlier + later)[..|earlier + later| - 1] == earlier + front;
      ServedAlong(cfg, start, initial, callers, earlier, front, t, due);
      EveryRunKeepsTheInvariant(cfg, start, initial, callers, earlier + front);
      ServedKept(cfg, initial, After(cfg, start, initial, callers, earlier + front).value, e, t, due);
    }
  }

  /** A due call never returns in vain: whatever the other callers do, when a call that found the
      deadline passed at its first check is back outside, some load with a caller time at or after
      that deadline has happened, its own or another's. */
  lemma DueCallsAreServed(
      cfg: Config, start: int, initial: Registry, callers: nat, earlier: seq<Event>, later: seq<Event>, t: nat)
    requires After(cfg, start, initial, callers, earlier + [Advance(t)]).Some?
    requires After(cfg, start, initial, callers, earlier + [Advance(t)] + later).Some? && WithinOneCall(later, t)
    requires var s := After(cfg, start, initial, callers, earlier);
             s.Some? && t < |s.value.callers| && s.value.callers[t].FirstCheck?
                 && Due(s.value.next, s.value.callers[t].now)
    ensures var due := After(cfg, start, initial, callers, earlier).value.next;
            var s := After(cfg, start, initial, callers, earlier + [Advance(t)] + later).value;
            t < |s.callers| && |s.loadTimes| > 0 && (s.callers[t].Outside? ==> LastLoad(s) >= due)
  {
    var s := After(cfg, start, initial, callers, earlier).value;
    assert (earlier + [Advance(t)])[..|earlier|] == earlier;
    EveryRunKeepsTheInvariant(cfg, start, initial, callers, earlier);
    assert Served(Step(cfg, s, Advance(t)), t, s.next);
    ServedAlong(cfg, start, initial, callers, earlier + [Advance(t)], later, t, s.next);
  }

  // ---- When a reload is scheduled, and when a call loads --------------------------------

  /** In every reachable state, with nobody between a load and its scheduling: a next load is scheduled
      exactly under virtual mode with rule files and a positive interval, one interval after the last
      load, which to begin with is the one at start-up. */
  lemma ScheduledExactly(cfg: Config, start: int, initial: Registry, callers: nat, events: seq<Event>)
    requires After(cfg, start, initial, callers, events).Some?
    ensures var s := After(cfg, start, initial, callers, events).value;
            && |s.loadTimes| > 0
            && (s.locked.None? ==>
                  s.next == if cfg.virtualMode && cfg.hasFiles && cfg.interval > 0
                            then LastLoad(s) + cfg.interval else 0)
            && (events == [] ==> s.loadTimes == [start] && s.registry == initial)
  {
    EveryRunKeepsTheInvariant(cfg, start, initial, callers, events);
  }

  /** In every reachable state, a call that holds the lock and looks again loads exactly if reloading is
      configured and one interval has passed since the last load; otherwise it leaves. */
  lemma LoadsExactly(cfg: Config, start: int, initial: Registry, callers: nat, events: seq<Event>, t: nat)
    requires After(cfg, start, initial, callers, events + [Advance(t)]).Some?
    requires var s := After(cfg, start, initial, callers, events);
             s.Some? && t < |s.value.callers| && s.value.callers[t].SecondCheck?
    ensures var s := After(cfg, start, initial, callers, events).value;
            var next := After(cfg, start, initial, callers, events + [Advance(t)]).value;
            && |s.loadTimes| > 0 && t < |next.callers|
            && var now, due := s.callers[t].now, LastLoad(s) + cfg.interval;
               next.callers[t] == if cfg.virtualMode && cfg.hasFiles && cfg.interval > 0 && due != 0 && now >= due
                                  then Loading(now) else Unlocking
  {
    assert (events + [Advance(t)])[..|events|] == events;
    EveryRunKeepsTheInvariant(cfg, start, initial, callers, events);
  }

  /** A load that fails keeps the registry and is counted; one that succeeds replaces it and is counted;
      either way the next load is due one interval after the time of this one's caller. */
  lemma LoadRunsThrough(cfg: Config, s: State, t: nat, outcome: Option<Registry>) returns (end: State)
    requires t < |s.callers| && s.callers[t].Loading? && s.locked == Some(t)
    ensures end.registry == (if outcome.Some? then outcome.value else s.registry)
    ensures end.successes == s.successes + (if outcome.Some? then 1 else 0)
    ensures end.errors == s.errors + (if outcome.Some? then 0 else 1)
    ensures end.loadTimes == s.loadTimes + [s.callers[t].now] && end.outcomes == s.outcomes + [outcome]
    ensures end.next == if cfg.virtualMode && cfg.hasFiles && cfg.interval > 0
                        then s.callers[t].now + cfg.interval else s.next
    ensures end.locked == None && end.callers == s.callers[t := Outside]
  {
    end := Step(cfg, s, LoadFiles(t, outcome));
    if outcome.Some? {
      end := Step(cfg, end, Advance(t));
    }
    end := Step(cfg, end, Advance(t));
    end := Step(cfg, end, Advance(t));
    end := Step(cfg, end, Advance(t));
  }
}
