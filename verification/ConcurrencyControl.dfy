/** The two threads that share the seeder's concurrency target and its ramp-up freeze, as steps: the
    regulator's tick and the health probe's `fire`. Every atomic load, store or compare-and-swap is
    one step; tick times, ring readings, clock readings and deadlines are arbitrary. */
module ConcurrencyControl {
  import opened GoBasics
  import opened Regulator

  /** Within one regulator tick. A stall freezes ramp-up before it stores the target. */
  datatype RegPc =
    | RIdle
    | RHeld(oldN: int)
    | RFreezeLoad(oldN: int, newN: int, deadline: int)
    | RFreezeSwap(oldN: int, newN: int, deadline: int, cur: int)
    | RStore(newN: int)

  /** Within one `fire`. The kill-switch stores the target before it freezes ramp-up. */
  datatype ProbePc =
    | PIdle
    | PHeld(oldN: int)
    | PFreezeLoad(deadline: int)
    | PFreezeSwap(deadline: int, cur: int)

  datatype Control = Control(target: int, freeze: int, reg: RegPc, probe: ProbePc)

  datatype ControlEvent =
    | RegLoad
    | RegDecide(signals: Signals, now: int)
    | RegFreezeLoad
    | RegFreezeSwap
    | RegStoreTarget
    | ProbeLoad
    | ProbeStore(deadline: int)
    | ProbeFreezeLoad
    | ProbeFreezeSwap

  /** The decision of a tick loads the freeze: ramp-up is allowed to it if the freeze has passed. */
  predicate ControlEnabled(ctl: Control, e: ControlEvent) {
    match e
    case RegLoad => ctl.reg.RIdle?
    case RegDecide(signals, now) => ctl.reg.RHeld? && signals.rampAllowed == (now >= ctl.freeze)
    case RegFreezeLoad => ctl.reg.RFreezeLoad?
    case RegFreezeSwap => ctl.reg.RFreezeSwap?
    case RegStoreTarget => ctl.reg.RStore?
    case ProbeLoad => ctl.probe.PIdle?
    case ProbeStore(_) => ctl.probe.PHeld?
    case ProbeFreezeLoad => ctl.probe.PFreezeLoad?
    case ProbeFreezeSwap => ctl.probe.PFreezeSwap?
  }

  /** Only a changed target is stored. */
  function Pending(oldN: int, newN: int): RegPc {
    if newN != oldN then RStore(newN) else RIdle
  }

  const STALL_FREEZE_TICKS := 5

  function Decided(maxN: int, oldN: int, signals: Signals, now: int): RegPc {
    var (newN, reason) := Decide(DefaultConfig(maxN), oldN, signals);
    if reason == Stall then RFreezeLoad(oldN, newN, now + STALL_FREEZE_TICKS * DefaultConfig(maxN).tick)
    else Pending(oldN, newN)
  }

  function ControlStep(maxN: int, ctl: Control, e: ControlEvent): Control
    requires ControlEnabled(ctl, e)
  {
    match e
    case RegLoad => ctl.(reg := RHeld(ctl.target))
    case RegDecide(signals, now) => ctl.(reg := Decided(maxN, ctl.reg.oldN, signals, now))
    case RegFreezeLoad =>
      var RFreezeLoad(oldN, newN, deadline) := ctl.reg;
      ctl.(reg := if ctl.freeze >= deadline then Pending(oldN, newN) else RFreezeSwap(oldN, newN, deadline, ctl.freeze))
    case RegFreezeSwap =>
      var RFreezeSwap(oldN, newN, deadline, cur) := ctl.reg;
      if ctl.freeze == cur then ctl.(freeze := deadline, reg := Pending(oldN, newN))
      else ctl.(reg := RFreezeLoad(oldN, newN, deadline))
    case RegStoreTarget => ctl.(target := ctl.reg.newN, reg := RIdle)
    case ProbeLoad => ctl.(probe := PHeld(ctl.target))
    case ProbeStore(deadline) =>
      if Cuts(ctl) then ctl.(target := ProbeTarget(ctl.probe.oldN), probe := PFreezeLoad(deadline))
      else ctl.(probe := PIdle)
    case ProbeFreezeLoad =>
      ctl.(probe := if ctl.freeze >= ctl.probe.deadline then PIdle else PFreezeSwap(ctl.probe.deadline, ctl.freeze))
    case ProbeFreezeSwap =>
      if ctl.freeze == ctl.probe.cur then ctl.(freeze := ctl.probe.deadline, probe := PIdle)
      else ctl.(probe := PFreezeLoad(ctl.probe.deadline))
  }

  /** Whether the kill-switch's pending store happens: it wants less than it loaded. */
  predicate Cuts(ctl: Control) {
    ctl.probe.PHeld? && ProbeTarget(ctl.probe.oldN) < ctl.probe.oldN
  }

  // ---- Range and freeze -----------------------------------------------------------------

  predicate InTargetRange(maxN: int, n: int) {
    1 <= n <= maxN
  }

  /** The target, and every value a thread has loaded or is about to store; a stall has lowered
      what it loaded, and a pending swap of the freeze raises it. */
  ghost predicate TargetSafe(maxN: int, ctl: Control) {
    && InTargetRange(maxN, ctl.target)
    && (ctl.reg.RHeld? ==> InTargetRange(maxN, ctl.reg.oldN))
    && (ctl.reg.RFreezeLoad? || ctl.reg.RFreezeSwap? ==>
          InTargetRange(maxN, ctl.reg.oldN) && InTargetRange(maxN, ctl.reg.newN) && ctl.reg.newN < ctl.reg.oldN)
    && (ctl.reg.RFreezeSwap? ==> ctl.reg.cur < ctl.reg.deadline)
    && (ctl.reg.RStore? ==> InTargetRange(maxN, ctl.reg.newN))
    && (ctl.probe.PHeld? ==> InTargetRange(maxN, ctl.probe.oldN))
    && (ctl.probe.PFreezeSwap? ==> ctl.probe.cur < ctl.probe.deadline)
  }

  lemma StallLowers(maxN: int, oldN: int, s: Signals)
    requires InTargetRange(maxN, oldN) && Decide(DefaultConfig(maxN), oldN, s).1 == Stall
    ensures 1 <= Decide(DefaultConfig(maxN), oldN, s).0 < oldN
  {
  }

  /** Regulator and probe each load, compute and store without synchronisation; still no
      interleaving takes the target out of [1, maxN]. */
  lemma TargetSafeKept(maxN: int, ctl: Control, e: ControlEvent)
    requires maxN >= 1 && TargetSafe(maxN, ctl) && ControlEnabled(ctl, e)
    ensures TargetSafe(maxN, ControlStep(maxN, ctl, e))
  {
    if e.RegDecide? {
      DecideIsBounded(DefaultConfig(maxN), ctl.reg.oldN, e.signals);
      if Decide(DefaultConfig(maxN), ctl.reg.oldN, e.signals).1 == Stall {
        StallLowers(maxN, ctl.reg.oldN, e.signals);
      }
    }
  }

  /** No step of either thread takes a freeze back. */
  lemma FreezeNeverFalls(maxN: int, ctl: Control, e: ControlEvent)
    requires TargetSafe(maxN, ctl) && ControlEnabled(ctl, e)
    ensures ControlStep(maxN, ctl, e).freeze >= ctl.freeze
  {
  }

  /** A decision made before the freeze has passed never raises what it loaded. */
  lemma FrozenNeverRamps(maxN: int, ctl: Control, signals: Signals, now: int)
    requires maxN >= 1 && TargetSafe(maxN, ctl) && ControlEnabled(ctl, RegDecide(signals, now)) && now < ctl.freeze
    ensures Decide(DefaultConfig(maxN), ctl.reg.oldN, signals).0 <= ctl.reg.oldN
  {
    DecideIsBounded(DefaultConfig(maxN), ctl.reg.oldN, signals);
  }

  // ---- When a cut survives --------------------------------------------------------------

  /** The regulator's steps from a decision up to its store, if it comes to one, with no step of the
      probe in between. */
  function FinishStore(maxN: int, ctl: Control): Control
    decreases match ctl.reg
              case RFreezeSwap(_, _, _, cur) => if ctl.freeze == cur then 1 else 3
              case RFreezeLoad(_, _, _) => 2
              case _ => 0
  {
    match ctl.reg
    case RStore(_) => ControlStep(maxN, ctl, RegStoreTarget)
    case RFreezeLoad(_, _, _) => FinishStore(maxN, ControlStep(maxN, ctl, RegFreezeLoad))
    case RFreezeSwap(_, _, _, _) => FinishStore(maxN, ControlStep(maxN, ctl, RegFreezeSwap))
    case _ => ctl
  }

  /** The rest of the regulator's tick. A tick that is about to begin runs as a whole. */
  function FinishTick(maxN: int, ctl: Control, signals: Signals, now: int): Control
    requires signals.rampAllowed == (now >= ctl.freeze)
  {
    var loaded := if ctl.reg.RIdle? then ControlStep(maxN, ctl, RegLoad) else ctl;
    FinishStore(maxN, if loaded.reg.RHeld? then ControlStep(maxN, loaded, RegDecide(signals, now)) else loaded)
  }

  lemma StoredTarget(maxN: int, ctl: Control)
    requires TargetSafe(maxN, ctl)
    ensures FinishStore(maxN, ctl).target
            == if ctl.reg.RStore? || ctl.reg.RFreezeLoad? || ctl.reg.RFreezeSwap? then ctl.reg.newN else ctl.target
    decreases match ctl.reg
              case RFreezeSwap(_, _, _, cur) => if ctl.freeze == cur then 1 else 3
              case RFreezeLoad(_, _, _) => 2
              case _ => 0
  {
    match ctl.reg
    case RFreezeLoad(_, _, _) => StoredTarget(maxN, ControlStep(maxN, ctl, RegFreezeLoad));
    case RFreezeSwap(_, _, _, _) => StoredTarget(maxN, ControlStep(maxN, ctl, RegFreezeSwap));
    case _ =>
  }

  /** A tick's target: its decision on the value it loaded, or the current one if it changes nothing. */
  lemma TickTarget(maxN: int, ctl: Control, signals: Signals, now: int)
    requires maxN >= 1 && TargetSafe(maxN, ctl) && signals.rampAllowed == (now >= ctl.freeze)
    ensures FinishTick(maxN, ctl, signals, now).target
            == match ctl.reg
               case RIdle => Decide(DefaultConfig(maxN), ctl.target, signals).0
               case RHeld(n) =>
                 var newN := Decide(DefaultConfig(maxN), n, signals).0;
                 if newN != n then newN else ctl.target
               case _ => ctl.reg.newN
  {
    var loaded := if ctl.reg.RIdle? then ControlStep(maxN, ctl, RegLoad) else ctl;
    if loaded.reg.RHeld? {
      TargetSafeKept(maxN, loaded, RegDecide(signals, now));
      StoredTarget(maxN, ControlStep(maxN, loaded, RegDecide(signals, now)));
      if Decide(DefaultConfig(maxN), loaded.reg.oldN, signals).1 == Stall {
        StallLowers(maxN, loaded.reg.oldN, signals);
      }
    } else {
      StoredTarget(maxN, loaded);
    }
  }

  /** For every state in which the kill-switch cuts the target, to c: the regulator's next store
      leaves the target above c exactly if
      - it was pending at the cut and wants more than c;
      - or it comes from a value loaded before the cut, and the decision on that value changes it
        to more than c. From a value of at most c that takes a ramp-up of c itself;
      - or it comes from the cut target, and is a ramp-up. Either ramp-up needs a passed freeze. */
  lemma NextStoreAfterCut(maxN: int, ctl: Control, deadline: int, signals: Signals, now: int)
    requires maxN >= 1 && TargetSafe(maxN, ctl) && Cuts(ctl)
    requires signals.rampAllowed == (now >= ctl.freeze)
    ensures var cut := ControlStep(maxN, ctl, ProbeStore(deadline));
            var c, after := ProbeTarget(ctl.probe.oldN), FinishTick(maxN, cut, signals, now);
            && cut.target == c
            && match ctl.reg
               case RIdle => after.target > c <==> Decide(DefaultConfig(maxN), c, signals) == (c + 1, RampUp)
               case RHeld(n) =>
                 var newN := Decide(DefaultConfig(maxN), n, signals).0;
                 && (after.target > c <==> newN != n && newN > c)
                 && (n <= c ==>
                       (after.target > c <==> n == c && Decide(DefaultConfig(maxN), n, signals) == (c + 1, RampUp)))
               case _ => after.target > c <==> ctl.reg.newN > c
    ensures now < ctl.freeze && (ctl.reg.RIdle? || (ctl.reg.RHeld? && ctl.reg.oldN <= ProbeTarget(ctl.probe.oldN))) ==>
              FinishTick(maxN, ControlStep(maxN, ctl, ProbeStore(deadline)), signals, now).target
              <= ProbeTarget(ctl.probe.oldN)
  {
    var cut := ControlStep(maxN, ctl, ProbeStore(deadline));
    TargetSafeKept(maxN, ctl, ProbeStore(deadline));
    TickTarget(maxN, cut, signals, now);
    DecideIsBounded(DefaultConfig(maxN), if ctl.reg.RHeld? then ctl.reg.oldN else cut.target, signals);
  }

  /** When `fire` returns from a cut, ramp-up is frozen until its deadline at least. */
  lemma CutLeavesAFreeze(maxN: int, ctl: Control, e: ControlEvent)
    requires ControlEnabled(ctl, e) && TargetSafe(maxN, ctl) && (ctl.probe.PFreezeLoad? || ctl.probe.PFreezeSwap?)
    ensures var next := ControlStep(maxN, ctl, e);
            if next.probe.PIdle? then next.freeze >= ctl.probe.deadline
            else (next.probe.PFreezeLoad? || next.probe.PFreezeSwap?) && next.probe.deadline == ctl.probe.deadline
  {
  }

  /** Nothing either thread has under way can take the target above c once ramp-up is frozen. A
      value loaded by the regulator can still be lowered by one and stored, and a value loaded by
      the probe is divided before it is stored. */
  predicate Contained(ctl: Control, c: int) {
    && ctl.target <= c
    && (ctl.reg.RHeld? ==> ctl.reg.oldN <= c + 1)
    && (ctl.reg.RFreezeLoad? || ctl.reg.RFreezeSwap? || ctl.reg.RStore? ==> ctl.reg.newN <= c)
    && (Cuts(ctl) ==> ProbeTarget(ctl.probe.oldN) <= c)
  }

  /** A step before the deadline, under a freeze of at least the deadline, keeps that. */
  lemma ContainedKept(maxN: int, ctl: Control, e: ControlEvent, c: int, deadline: int)
    requires maxN >= 1 && TargetSafe(maxN, ctl) && ControlEnabled(ctl, e) && Contained(ctl, c) && ctl.freeze >= deadline
    requires e.RegDecide? ==> e.now < deadline
    ensures Contained(ControlStep(maxN, ctl, e), c)
  {
    if e.RegDecide? {
      FrozenNeverRamps(maxN, ctl, e.signals, e.now);
      DecidedFromOneAbove(maxN, ctl.reg.oldN, e.signals);
    }
  }

  /** A decision that does not raise lowers by at least one if it changes anything. */
  lemma DecidedFromOneAbove(maxN: int, oldN: int, s: Signals)
    requires InTargetRange(maxN, oldN) && Decide(DefaultConfig(maxN), oldN, s).0 <= oldN
    ensures Decide(DefaultConfig(maxN), oldN, s).0 <= oldN - 1 || Decide(DefaultConfig(maxN), oldN, s).0 == oldN
    ensures Decide(DefaultConfig(maxN), oldN, s).1 == Stall ==> Decide(DefaultConfig(maxN), oldN, s).0 < oldN
  {
    if Decide(DefaultConfig(maxN), oldN, s).1 == Stall {
      StallLowers(maxN, oldN, s);
    }
  }

  /** The state after a run of control steps, if every step was enabled. */
  function RunFrom(maxN: int, ctl: Control, events: seq<ControlEvent>): Option<Control>
    decreases |events|
  {
    if events == [] then Some(ctl)
    else if ControlEnabled(ctl, events[0]) then RunFrom(maxN, ControlStep(maxN, ctl, events[0]), events[1..])
    else None
  }

  predicate DecidesBefore(events: seq<ControlEvent>, deadline: int) {
    forall i | 0 <= i < |events| :: events[i].RegDecide? ==> events[i].now < deadline
  }

  lemma {:induction false} ContainedRuns(maxN: int, ctl: Control, events: seq<ControlEvent>, c: int, deadline: int)
    requires maxN >= 1 && TargetSafe(maxN, ctl) && Contained(ctl, c) && ctl.freeze >= deadline
    requires DecidesBefore(events, deadline) && RunFrom(maxN, ctl, events).Some?
    ensures RunFrom(maxN, ctl, events).value.target <= c
    decreases |events|
  {
    if events != [] {
      assert events[0].RegDecide? ==> events[0].now < deadline;
      TargetSafeKept(maxN, ctl, events[0]);
      FreezeNeverFalls(maxN, ctl, events[0]);
      ContainedKept(maxN, ctl, events[0], c, deadline);
      ContainedRuns(maxN, ControlStep(maxN, ctl, events[0]), events[1..], c, deadline);
    }
  }

  /** Under a freeze until the deadline: some interleaving of the two threads, all of whose
      decisions fall before the deadline, ends above c. */
  ghost predicate CanExceed(maxN: int, ctl: Control, c: int, deadline: int) {
    exists events: seq<ControlEvent> ::
      && DecidesBefore(events, deadline)
      && RunFrom(maxN, ctl, events).Some? && RunFrom(maxN, ctl, events).value.target > c
  }

  lemma OneMore(maxN: int, ctl: Control, e: ControlEvent, c: int, deadline: int)
    requires ControlEnabled(ctl, e) && (e.RegDecide? ==> e.now < deadline)
    requires CanExceed(maxN, ControlStep(maxN, ctl, e), c, deadline)
    ensures CanExceed(maxN, ctl, c, deadline)
  {
    var rest :|
      && DecidesBefore(rest, deadline)
      && RunFrom(maxN, ControlStep(maxN, ctl, e), rest).Some?
      && RunFrom(maxN, ControlStep(maxN, ctl, e), rest).value.target > c;
    var events := [e] + rest;
    assert events[1..] == rest;
    assert DecidesBefore(events, deadline);
  }

  lemma AlreadyAbove(maxN: int, ctl: Control, c: int, deadline: int)
    requires ctl.target > c
    ensures CanExceed(maxN, ctl, c, deadline)
  {
    var none: seq<ControlEvent> := [];
    assert DecidesBefore(none, deadline) && RunFrom(maxN, ctl, none) == Some(ctl);
  }

  lemma StoreExceeds(maxN: int, ctl: Control, c: int, deadline: int)
    requires ctl.reg.RStore? && ctl.reg.newN > c
    ensures CanExceed(maxN, ctl, c, deadline)
  {
    AlreadyAbove(maxN, ControlStep(maxN, ctl, RegStoreTarget), c, deadline);
    OneMore(maxN, ctl, RegStoreTarget, c, deadline);
  }

  lemma StallExceeds(maxN: int, ctl: Control, c: int, deadline: int)
    requires TargetSafe(maxN, ctl) && (ctl.reg.RFreezeLoad? || ctl.reg.RFreezeSwap?) && ctl.reg.newN > c
    ensures CanExceed(maxN, ctl, c, deadline)
    decreases if ctl.reg.RFreezeLoad? then 1 else if ctl.freeze == ctl.reg.cur then 0 else 2
  {
    var e := if ctl.reg.RFreezeLoad? then RegFreezeLoad else RegFreezeSwap;
    var next := ControlStep(maxN, ctl, e);
    if next.reg.RStore? {
      StoreExceeds(maxN, next, c, deadline);
    } else {
      StallExceeds(maxN, next, c, deadline);
    }
    OneMore(maxN, ctl, e, c, deadline);
  }

  lemma HeldExceeds(maxN: int, ctl: Control, c: int, deadline: int)
    requires TargetSafe(maxN, ctl) && ctl.reg.RHeld? && ctl.reg.oldN > c + 1 >= 1 && ctl.freeze >= deadline
    ensures CanExceed(maxN, ctl, c, deadline)
  {
    var slowTail := Signals(1, 4, 0.0, false, 0, false);
    var e := RegDecide(slowTail, deadline - 1);
    assert Decide(DefaultConfig(maxN), ctl.reg.oldN, slowTail) == (ctl.reg.oldN - 1, TailLatency);
    StoreExceeds(maxN, ControlStep(maxN, ctl, e), c, deadline);
    OneMore(maxN, ctl, e, c, deadline);
  }

  lemma CutExceeds(maxN: int, ctl: Control, c: int, deadline: int)
    requires Cuts(ctl) && ProbeTarget(ctl.probe.oldN) > c
    ensures CanExceed(maxN, ctl, c, deadline)
  {
    AlreadyAbove(maxN, ControlStep(maxN, ctl, ProbeStore(deadline)), c, deadline);
    OneMore(maxN, ctl, ProbeStore(deadline), c, deadline);
  }

  /** A cut to c holds until its freeze has passed, in every interleaving, exactly when nothing that
      was under way exceeds it in the sense of `Contained`. */
  lemma CutHoldsExactly(maxN: int, ctl: Control, c: int, deadline: int)
    requires maxN >= 1 && c >= 1 && TargetSafe(maxN, ctl) && ctl.freeze >= deadline
    ensures !CanExceed(maxN, ctl, c, deadline) <==> Contained(ctl, c)
  {
    if Contained(ctl, c) {
      forall events | DecidesBefore(events, deadline) && RunFrom(maxN, ctl, events).Some?
        ensures RunFrom(maxN, ctl, events).value.target <= c
      {
        ContainedRuns(maxN, ctl, events, c, deadline);
      }
    } else if ctl.target > c {
      AlreadyAbove(maxN, ctl, c, deadline);
    } else if Cuts(ctl) && ProbeTarget(ctl.probe.oldN) > c {
      CutExceeds(maxN, ctl, c, deadline);
    } else if ctl.reg.RHeld? {
      HeldExceeds(maxN, ctl, c, deadline);
    } else if ctl.reg.RStore? {
      StoreExceeds(maxN, ctl, c, deadline);
    } else {
      StallExceeds(maxN, ctl, c, deadline);
    }
  }
}
