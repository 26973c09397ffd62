/** The two threads that move the seeder's concurrency target: the AIMD regulator's tick and the
    health probe's kill-switch, each as a decision function and as the code that applies it. */
module Regulator {
  import opened GoBasics
  import opened Division

  datatype RegulatorConfig = RegulatorConfig(
    tick: int,
    maxN: int,
    minN: int,
    holdBandPct: real,
    increaseAtPct: real,
    tailDecreasePct: real,
    stallTicks: int)

  /** defaultRegulatorConfig after runRegulator's own clamping of maxN. */
  function DefaultConfig(maxN: int): RegulatorConfig {
    RegulatorConfig(2_000_000_000, if maxN < 1 then 1 else maxN, 1, 1.5, 1.2, 3.0, 3)
  }

  predicate Sane(cfg: RegulatorConfig) {
    1 <= cfg.minN <= cfg.maxN
  }

  /** What one tick sees: the ring's percentiles (ns) and error share, whether the stall streak is
      long enough, the best p50 so far (0: none yet), and whether the ramp-up freeze has passed. */
  datatype Signals = Signals(p50: int, p99: int, errPct: real, stallActive: bool, base: int, rampAllowed: bool)

  datatype Reason = Errors | Stall | TailLatency | RampUp | HoldElevated | Hold

  predicate TailHeavy(cfg: RegulatorConfig, s: Signals) {
    s.p50 > 0 && s.p99 > 0 && (s.p99 as real) / (s.p50 as real) > cfg.tailDecreasePct
  }

  predicate NearBaseline(cfg: RegulatorConfig, s: Signals) {
    s.base > 0 && (s.p50 as real) <= (s.base as real) * cfg.increaseAtPct
  }

  /** The switch of one tick, in its priority order. */
  function Decide(cfg: RegulatorConfig, oldN: int, s: Signals): (int, Reason) {
    if s.errPct > 0.0 then (Max(GoDiv(oldN, 2), cfg.minN), Errors)
    else if s.stallActive && oldN > cfg.minN then (Max(GoDiv(oldN, 2), cfg.minN), Stall)
    else if TailHeavy(cfg, s) then (Max(oldN - 1, cfg.minN), TailLatency)
    else if NearBaseline(cfg, s) && oldN < cfg.maxN && s.rampAllowed then (oldN + 1, RampUp)
    else if s.base > 0 && (s.p50 as real) > (s.base as real) * cfg.holdBandPct then (oldN, HoldElevated)
    else (oldN, Hold)
  }

  /** The tick never leaves [minN, maxN], and it raises the target, by one, exactly when no
      pressure signal is present, latency is near its floor, there is room, and no freeze holds. */
  lemma DecideIsBounded(cfg: RegulatorConfig, oldN: int, s: Signals)
    requires Sane(cfg) && cfg.minN <= oldN <= cfg.maxN
    ensures cfg.minN <= Decide(cfg, oldN, s).0 <= cfg.maxN
    ensures Decide(cfg, oldN, s).0 <= oldN + 1
    ensures Decide(cfg, oldN, s).0 > oldN <==>
              && s.errPct <= 0.0 && !(s.stallActive && oldN > cfg.minN) && !TailHeavy(cfg, s)
              && NearBaseline(cfg, s) && oldN < cfg.maxN && s.rampAllowed
  {
    assert oldN / 2 <= oldN;
  }

  /** The whole table of one tick, in the order of its rows. */
  lemma DecideExactly(cfg: RegulatorConfig, oldN: int, s: Signals)
    requires Sane(cfg) && cfg.minN <= oldN <= cfg.maxN
    ensures var tail := s.p50 > 0 && s.p99 > 0 && (s.p99 as real) / (s.p50 as real) > cfg.tailDecreasePct;
            var near := s.base > 0 && (s.p50 as real) <= (s.base as real) * cfg.increaseAtPct;
            var (newN, reason) := Decide(cfg, oldN, s);
            && (s.errPct > 0.0 ==> newN == Max(oldN / 2, cfg.minN) && reason == Errors)
            && (s.errPct <= 0.0 && s.stallActive && oldN > cfg.minN ==>
                  newN == Max(oldN / 2, cfg.minN) && reason == Stall)
            && (s.errPct <= 0.0 && !(s.stallActive && oldN > cfg.minN) && tail ==>
                  newN == Max(oldN - 1, cfg.minN) && reason == TailLatency)
            && (s.errPct <= 0.0 && !(s.stallActive && oldN > cfg.minN) && !tail ==>
                  if near && oldN < cfg.maxN && s.rampAllowed then newN == oldN + 1 && reason == RampUp
                  else
                    && newN == oldN
                    && reason == if s.base > 0 && (s.p50 as real) > (s.base as real) * cfg.holdBandPct
                                 then HoldElevated else Hold)
  {
  }

  /** The documented reaction to a stall, one less but at least the minimum, is the actual one exactly
      one above the minimum; from there on the target is halved. */
  lemma StallIsAdditiveExactly(cfg: RegulatorConfig, oldN: int, s: Signals)
    requires Sane(cfg) && cfg.minN < oldN && s.errPct <= 0.0 && s.stallActive
    ensures Decide(cfg, oldN, s) == (Max(oldN / 2, cfg.minN), Stall)
    ensures Decide(cfg, oldN, s).0 == Max(oldN - 1, cfg.minN) <==> oldN == cfg.minN + 1
  {
  }

  /** For instance a stall takes 16 to 8, where the documentation has 15. */
  lemma StallHalvesSixteen(s: Signals)
    requires s.errPct <= 0.0 && s.stallActive
    ensures Decide(DefaultConfig(16), 16, s).0 == 8 != Max(16 - 1, DefaultConfig(16).minN)
  {
  }

  const PROBE_THROTTLE_DIVISOR := 4

  /** The kill-switch's new target: a quarter, but at least one. */
  function ProbeTarget(oldN: int): int {
    Max(GoDiv(oldN, PROBE_THROTTLE_DIVISOR), 1)
  }

  // ---- The code that applies the decisions ----------------------------------------------

  class AtomicInt {
    var value: int

    constructor (value: int)
      ensures this.value == value
    {
      this.value := value;
    }
  }

  /** suppressRampUntil run without interference: only a later deadline is written. */
  method SuppressRampUntil(rampUpFreeze: AtomicInt, deadline: int)
    modifies rampUpFreeze
    ensures rampUpFreeze.value == Max(old(rampUpFreeze.value), deadline)
  {
    if rampUpFreeze.value < deadline {
      rampUpFreeze.value := deadline;
    }
  }

  /** The kill-switch aims at the largest whole number within a quarter of the target, or at one. */
  lemma ProbeTargetExactly(oldN: int)
    requires oldN >= 1
    ensures var n := ProbeTarget(oldN);
            n >= 1 && (n == 1 || 4 * n <= oldN) && oldN < 4 * (n + 1)
  {
    GoDivTruncates(oldN, PROBE_THROTTLE_DIVISOR);
  }

  /** The built-in tuning in numbers: a tail of more than three times the median lowers the target; a
      median within 1.2 times the best one raises it, room and freeze permitting; one above 1.5 times the
      best is reported as elevated. Ticks are two seconds apart, three without completion are a stall. */
  lemma DefaultTuning(maxN: int, oldN: int, s: Signals)
    requires 1 <= oldN <= maxN && s.errPct <= 0.0 && !s.stallActive && s.p50 > 0 && s.base > 0
    ensures var cfg := DefaultConfig(maxN);
            && cfg.minN == 1 && cfg.maxN == maxN && cfg.tick == 2_000_000_000 && cfg.stallTicks == 3
            && Decide(cfg, oldN, s)
               == if s.p99 > 0 && (s.p99 as real) / (s.p50 as real) > 3.0 then (Max(oldN - 1, 1), TailLatency)
                  else if s.p50 as real <= s.base as real * 1.2 && oldN < maxN && s.rampAllowed then (oldN + 1, RampUp)
                  else (oldN, if s.p50 as real > s.base as real * 1.5 then HoldElevated else Hold)
  {
    DecideExactly(DefaultConfig(maxN), oldN, s);
  }

  /** The regulator's private state across ticks. */
  class RegulatorLoop {
    const cfg: RegulatorConfig
    var lastCompleted: int
    var stallStreak: int
    var holdStreak: int
    var minP50: int

    constructor (cfg: RegulatorConfig)
      ensures this.cfg == cfg && lastCompleted == stallStreak == holdStreak == minP50 == 0
    {
      this.cfg := cfg;
      lastCompleted, stallStreak, holdStreak, minP50 := 0, 0, 0, 0;
    }

    /** One tick run without interference: the target moves as `Decide` says, only a stall extends
        the freeze (by five ticks) and restarts the streak, and a baseline is only ever lowered. */
    method Tick(target: AtomicInt, rampUpFreeze: AtomicInt, p50: int, p99: int, errPct: real, completed: int, now: int)
      returns (reason: Reason)
      requires target != rampUpFreeze
      modifies this, target, rampUpFreeze
      ensures var streak := if cfg.stallTicks <= 0 then old(stallStreak)
                            else if completed == old(lastCompleted) then old(stallStreak) + 1 else 0;
              var oldN, freeze := old(target.value), old(rampUpFreeze.value);
              var stalled := cfg.stallTicks > 0 && streak >= cfg.stallTicks;
              && minP50 == (if p50 > 0 && errPct == 0.0 && (old(minP50) == 0 || p50 < old(minP50))
                            then p50 else old(minP50))
              && (target.value, reason)
                 == Decide(cfg, oldN, Signals(p50, p99, errPct, stalled, minP50, now >= freeze))
              && rampUpFreeze.value == (if reason == Stall then Max(freeze, now + 5 * cfg.tick) else freeze)
              && stallStreak == (if reason == Stall then 0 else streak)
              && holdStreak == (if target.value != oldN then 0 else old(holdStreak) + 1)
      ensures lastCompleted == if cfg.stallTicks > 0 then completed else old(lastCompleted)
    {
      var stallActive := false;
      if cfg.stallTicks > 0 {
        if completed == lastCompleted {
          stallStreak := stallStreak + 1;
        } else {
          stallStreak := 0;
        }
        lastCompleted := completed;
        stallActive := stallStreak >= cfg.stallTicks;
      }
      if p50 > 0 && errPct == 0.0 {
        ObserveBaseline(p50);
      }
      var base := minP50;
      var oldN := target.value;
      var (newN, why) := Decide(cfg, oldN, Signals(p50, p99, errPct, stallActive, base, now >= rampUpFreeze.value));
      reason := why;
      if reason == Stall {
        stallStreak := 0;
        SuppressRampUntil(rampUpFreeze, now + 5 * cfg.tick);
      }
      if newN != oldN {
        target.value := newN;
        holdStreak := 0;
        return;
      }
      holdStreak := holdStreak + 1;
    }

    method ObserveBaseline(p50: int)
      modifies this`minP50
      ensures minP50 == if p50 > 0 && (old(minP50) == 0 || p50 < old(minP50)) then p50 else old(minP50)
    {
      if p50 <= 0 {
        return;
      }
      if minP50 == 0 || p50 < minP50 {
        minP50 := p50;
      }
    }
  }

  /** `fire` run without interference: it never raises the target, and it freezes ramp-up exactly
      when it lowered the target. */
  method ProbeFire(target: AtomicInt, rampUpFreeze: AtomicInt, now: int, holdOff: int)
    requires target != rampUpFreeze
    modifies target, rampUpFreeze
    ensures target.value == Min(old(target.value), Max(GoDiv(old(target.value), 4), 1))
            == Min(old(target.value), ProbeTarget(old(target.value)))
    ensures rampUpFreeze.value
            == if target.value < old(target.value) then Max(old(rampUpFreeze.value), now + holdOff)
               else old(rampUpFreeze.value)
  {
    var oldN := target.value;
    var newN := GoDiv(oldN, PROBE_THROTTLE_DIVISOR);
    if newN < 1 {
      newN := 1;
    }
    if newN < oldN {
      target.value := newN;
      SuppressRampUntil(rampUpFreeze, now + holdOff);
    }
  }
}
