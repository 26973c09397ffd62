/** The seeding pipeline as a transition system: the generator, the workers behind the slot gate,
    the regulator, the health probe, the caller's cancellation and the waiting main goroutine.
    Every atomic load or store, channel operation and POST outcome is one step; polling delays,
    tick times, probe readings and POST outcomes are nondeterministic. */
module SeedPipeline {
  import opened GoBasics
  import opened Division
  import opened WeightedSums
  import opened SeedGenerator
  import opened ConcurrencyControl
  import Regulator

  /** A batch is its request; the source's cached sample count is SampleCount of it. */
  type Batch = seq<TimeSeries>

  datatype Config = Config(
    walks: seq<Walk>,
    states: seq<Float>,
    start: int,
    end: int,
    step: int,
    batchSamples: int,
    maxConcurrency: int,
    initialConcurrency: int,
    noAdaptive: bool)

  /** What runStream needs: a series to divide by, a positive step, and a worker count its int32
      target can hold. */
  predicate Runnable(cfg: Config) {
    && |cfg.walks| == |cfg.states| > 0
    && cfg.step > 0
    && 1 <= cfg.maxConcurrency <= MAX_INT32
  }

  function PointsPerBatch(cfg: Config): int
    requires |cfg.walks| > 0
  {
    Max(GoDiv(cfg.batchSamples, |cfg.walks|), 1)
  }

  function ClampedInitial(initial: int, max: int): int {
    if initial < 1 || initial > max then max else initial
  }

  /** The first value stored in the int32 target. */
  function InitialTarget(noAdaptive: bool, initial: int, max: int): int {
    Int32(if noAdaptive then max else ClampedInitial(initial, max))
  }

  /** A batch holds at least one point per series, and no more points than configured otherwise; one
      more per series would be too many. */
  lemma PointsPerBatchExactly(cfg: Config)
    requires |cfg.walks| > 0
    ensures var n := PointsPerBatch(cfg);
            && n >= 1 && (n == 1 || n * |cfg.walks| <= cfg.batchSamples)
            && cfg.batchSamples < (n + 1) * |cfg.walks|
  {
    var b, k := cfg.batchSamples, |cfg.walks|;
    GoDivTruncates(b, k);
    var q := GoDiv(b, k);
    assert (q + 1) * k == q * k + k;
    if q < 1 {
      assert (1 + 1) * k == 2 * k;
      assert q * k <= 0 by {
        if q < 0 {
          ProductSign(q, k);
        }
      }
    }
  }

  /** For any worker count, the first stored target is the low 32 bits, as an int32, of the worker count
      or, in adaptive mode, of a requested start within it; it lies in [1, max] exactly when those bits
      are positive, and is the requested number itself for every count an int32 holds. */
  lemma InitialTargetInRange(noAdaptive: bool, initial: int, max: int)
    requires max >= 1
    ensures var wanted := if noAdaptive || initial < 1 || initial > max then max else initial;
            && (1 <= InitialTarget(noAdaptive, initial, max) <= max <==> 1 <= wanted % 0x1_0000_0000 <= MAX_INT32)
            && (max <= MAX_INT32 ==> InitialTarget(noAdaptive, initial, max) == wanted)
  {
    var wanted := if noAdaptive || initial < 1 || initial > max then max else initial;
    assert 1 <= wanted <= max;
    assert wanted % 0x1_0000_0000 <= wanted;
  }

  // ---- State ----------------------------------------------------------------------------

  datatype GenPc = GLoop | GAdvance | GCount(b: Batch) | GSend(b: Batch) | GDrain | GClose | GDone

  datatype WorkerPc =
    | WGate                        // waitForSlot, fast path: load target
    | WPark                        // slow path: select on ctx.Done and the poll timer
    | WPolled                      // load draining
    | WReload                      // load target again
    | WRecv                        // receive from the channel
    | WPost(b: Batch)           // POST in flight
    | WCountBatch(b: Batch)     // batchCount.Add
    | WCountSamples(b: Batch)   // sampleCount.Add
    | WErrCount                    // errCount.Add
    | WErrStash                    // generatorErr.CompareAndSwap
    | WErrCancel                   // cancel()
    | WDone

  datatype MainPc = MWait | MCheckErr | MCheckCtx | MFailed | MSucceeded

  /** The generator goroutine. `dropped` is the batch it gave up on when the run was cancelled. */
  datatype Generator = Generator(pc: GenPc, batchStart: int, states: seq<Float>, emitted: int, dropped: seq<Batch>)

  /** The channel, the workers and what became of each POST. */
  datatype Pool = Pool(
    queue: seq<Batch>, workers: seq<WorkerPc>, acked: seq<Batch>, failed: seq<Batch>,
    batchCount: int, sampleCount: int, errCount: int)

  datatype Flags = Flags(closed: bool, draining: bool, cancelled: bool, genErr: bool)

  datatype State = State(gen: Generator, pool: Pool, flags: Flags, ctl: Control, main: MainPc)

  ghost function Init(cfg: Config): State
    requires Runnable(cfg)
  {
    State(Generator(GLoop, cfg.start, cfg.states, 0, []),
          Pool([], seq(cfg.maxConcurrency, _ => WGate), [], [], 0, 0, 0),
          Flags(false, false, false, false),
          Control(InitialTarget(cfg.noAdaptive, cfg.initialConcurrency, cfg.maxConcurrency), 0, RIdle, PIdle),
          MWait)
  }

  /** One step of one goroutine. `flag` resolves its choice: for the generator and a parked worker,
      whether a select takes ctx.Done; for a POST, whether it succeeds. */
  datatype Event =
    | Gen(flag: bool)
    | Worker(w: nat, flag: bool)
    | Tune(step: ControlEvent)
    | Cancel
    | MainStep

  ghost predicate AllDone(workers: seq<WorkerPc>) {
    forall i | 0 <= i < |workers| :: workers[i].WDone?
  }

  // ---- Steps of the generator -----------------------------------------------------------

  ghost predicate GenEnabled(cfg: Config, s: State, flag: bool) {
    match s.gen.pc
    case GSend(_) => if flag then s.flags.cancelled else |s.pool.queue| < 2 * cfg.maxConcurrency
    case GDone => false
    case _ => true
  }

  /** Advancing every series and moving batchStart is one step: both are local to the generator. */
  ghost function GenMove(cfg: Config, gen: Generator, cancelled: bool, flag: bool): Generator
    requires Runnable(cfg) && |gen.states| == |cfg.walks|
  {
    match gen.pc
    case GLoop => gen.(pc := if gen.batchStart >= cfg.end || cancelled then GDrain else GAdvance)
    case GAdvance =>
      var batchEnd := BatchEnd(gen.batchStart, cfg.end, cfg.step, PointsPerBatch(cfg));
      var req := Request(cfg.walks, gen.states, gen.batchStart, batchEnd, cfg.step);
      gen.(pc := if req == [] then GLoop else GCount(req),
           batchStart := batchEnd,
           states := Carried(cfg.walks, gen.states, gen.batchStart, batchEnd, cfg.step))
    case GCount(b) => gen.(pc := GSend(b), emitted := gen.emitted + SampleCount(b))
    case GSend(b) => if flag then gen.(pc := GDrain, dropped := gen.dropped + [b]) else gen.(pc := GLoop)
    case GDrain => gen.(pc := GClose)
    case GClose => gen.(pc := GDone)
    case GDone => gen
  }

  ghost function GenStep(cfg: Config, s: State, flag: bool): State
    requires Runnable(cfg) && |s.gen.states| == |cfg.walks| && GenEnabled(cfg, s, flag)
  {
    s.(gen := GenMove(cfg, s.gen, s.flags.cancelled, flag),
       pool := if s.gen.pc.GSend? && !flag then s.pool.(queue := s.pool.queue + [s.gen.pc.b]) else s.pool,
       flags := s.flags.(draining := s.flags.draining || s.gen.pc.GDrain?,
                         closed := s.flags.closed || s.gen.pc.GClose?))
  }

  // ---- Steps of a worker ----------------------------------------------------------------

  ghost predicate WorkerEnabled(s: State, w: nat, flag: bool) {
    && w < |s.pool.workers|
    && match s.pool.workers[w]
       case WPark => flag ==> s.flags.cancelled
       case WRecv => s.pool.queue != [] || s.flags.closed
       case WDone => false
       case _ => true
  }

  ghost function WorkerMove(s: State, w: nat, flag: bool): WorkerPc
    requires WorkerEnabled(s, w, flag)
  {
    match s.pool.workers[w]
    case WGate => if s.ctl.target > w then WRecv else WPark
    case WPark => if flag then WDone else WPolled
    case WPolled => if s.flags.draining then WDone else WReload
    case WReload => if s.ctl.target > w then WRecv else WPark
    case WRecv => if s.pool.queue == [] then WDone else WPost(s.pool.queue[0])
    case WPost(b) => if flag then WCountBatch(b) else WErrCount
    case WCountBatch(b) => WCountSamples(b)
    case WCountSamples(b) => WGate
    case WErrCount => WErrStash
    case WErrStash => WErrCancel
    case WErrCancel => WDone
  }

  ghost function WorkerEffect(pool: Pool, pc: WorkerPc, flag: bool): Pool {
    match pc
    case WRecv => if pool.queue == [] then pool else pool.(queue := pool.queue[1..])
    case WPost(b) => if flag then pool.(acked := pool.acked + [b]) else pool.(failed := pool.failed + [b])
    case WCountBatch(b) => pool.(batchCount := pool.batchCount + 1)
    case WCountSamples(b) => pool.(sampleCount := pool.sampleCount + SampleCount(b))
    case WErrCount => pool.(errCount := pool.errCount + 1)
    case _ => pool
  }

  ghost function WorkerStep(s: State, w: nat, flag: bool): State
    requires WorkerEnabled(s, w, flag)
  {
    var pc := s.pool.workers[w];
    s.(pool := WorkerEffect(s.pool, pc, flag).(workers := s.pool.workers[w := WorkerMove(s, w, flag)]),
       flags := s.flags.(genErr := s.flags.genErr || pc.WErrStash?, cancelled := s.flags.cancelled || pc.WErrCancel?))
  }

  /** A worker at its gate, on either path, goes on to the channel exactly if the target is above its
      id, and parks otherwise. */
  lemma GateOpensExactly(s: State, w: nat, flag: bool)
    requires w < |s.pool.workers| && (s.pool.workers[w].WGate? || s.pool.workers[w].WReload?)
    ensures WorkerMove(s, w, flag) == if w < s.ctl.target then WRecv else WPark
  {
  }

  /** From one worker more than an int32 holds, up to twice as many, the stored target is not positive:
      whatever the state, every worker that reaches its gate, or looks again, parks. */
  lemma HugeWorkerCountParksEveryone(max: int, s: State, w: nat, flag: bool)
    requires MAX_INT32 < max <= 0x1_0000_0000 && s.ctl.target == InitialTarget(true, 0, max)
    requires w < |s.pool.workers| && (s.pool.workers[w].WGate? || s.pool.workers[w].WReload?)
    ensures s.ctl.target < 1 && WorkerMove(s, w, flag).WPark?
  {
    GateOpensExactly(s, w, flag);
  }

  // ---- Steps of the control threads, the caller and main --------------------------------

  ghost predicate Enabled(cfg: Config, s: State, e: Event) {
    match e
    case Gen(flag) => GenEnabled(cfg, s, flag)
    case Worker(w, flag) => WorkerEnabled(s, w, flag)
    case Tune(step) => !cfg.noAdaptive && ControlEnabled(s.ctl, step)
    case Cancel => true
    case MainStep => (s.main.MWait? && AllDone(s.pool.workers)) || s.main.MCheckErr? || s.main.MCheckCtx?
  }

  ghost function MainMove(main: MainPc, flags: Flags): MainPc {
    match main
    case MWait => MCheckErr
    case MCheckErr => if flags.genErr then MFailed else MCheckCtx
    case MCheckCtx => if flags.cancelled then MFailed else MSucceeded
    case _ => main
  }

  ghost function Step(cfg: Config, s: State, e: Event): State
    requires Runnable(cfg) && |s.gen.states| == |cfg.walks| && Enabled(cfg, s, e)
  {
    match e
    case Gen(flag) => GenStep(cfg, s, flag)
    case Worker(w, flag) => WorkerStep(s, w, flag)
    case Tune(step) => s.(ctl := ControlStep(cfg.maxConcurrency, s.ctl, step))
    case Cancel => s.(flags := s.flags.(cancelled := true))
    case MainStep => s.(main := MainMove(s.main, s.flags))
  }

  /** The state after a run of events from the initial state, if every event was enabled. */
  ghost function After(cfg: Config, events: seq<Event>): (r: Option<State>)
    requires Runnable(cfg)
    ensures r.Some? ==> |r.value.gen.states| == |cfg.walks|
  {
    if events == [] then Some(Init(cfg))
    else
      var before := After(cfg, events[..|events| - 1]);
      var e := events[|events| - 1];
      if before.Some? && Enabled(cfg, before.value, e) then Some(Step(cfg, before.value, e)) else None
  }

  // ---- What a quantity of samples is, and where samples can be --------------------------

  /** A way to weigh samples: how often one given sample occurs, or how many there are. */
  datatype Gauge = CountOf(x: Sample) | Size

  ghost function Weigh(g: Gauge, bag: multiset<Sample>): int {
    match g
    case CountOf(x) => bag[x]
    case Size => |bag|
  }

  ghost function OfBatch(g: Gauge): Batch -> int {
    b => Weigh(g, Contents(b))
  }

  ghost function InFlight(g: Gauge): WorkerPc -> int {
    (pc: WorkerPc) => if pc.WPost? then OfBatch(g)(pc.b) else 0
  }

  ghost function HeldByGen(g: Gauge, pc: GenPc): int {
    if pc.GCount? || pc.GSend? then OfBatch(g)(pc.b) else 0
  }

  ghost function StillToGenerate(cfg: Config, gen: Generator): multiset<Sample>
    requires Runnable(cfg) && |gen.states| == |cfg.walks|
  {
    Bag(cfg.walks, gen.states, gen.batchStart, cfg.end, cfg.step)
  }

  /** The samples of every series in [start, end), generated in one go. */
  ghost function Everything(cfg: Config): multiset<Sample>
    requires Runnable(cfg)
  {
    Bag(cfg.walks, cfg.states, cfg.start, cfg.end, cfg.step)
  }

  /** What the generator still owes: given up, held, or not yet generated. */
  ghost function GenSide(cfg: Config, gen: Generator, g: Gauge): int
    requires Runnable(cfg) && |gen.states| == |cfg.walks|
  {
    Total(OfBatch(g), gen.dropped) + HeldByGen(g, gen.pc) + Weigh(g, StillToGenerate(cfg, gen))
  }

  /** What was handed over: queued, in flight, acknowledged or failed. */
  ghost function PoolSide(pool: Pool, g: Gauge): int {
    Total(OfBatch(g), pool.queue) + Total(InFlight(g), pool.workers)
    + Total(OfBatch(g), pool.acked) + Total(OfBatch(g), pool.failed)
  }

  /** No sample is ever lost or doubled: at every moment the generator's side and the pool's side
      add up to the whole window. */
  ghost predicate Conserved(cfg: Config, s: State, g: Gauge)
    requires Runnable(cfg) && |s.gen.states| == |cfg.walks|
  {
    GenSide(cfg, s.gen, g) + PoolSide(s.pool, g) == Weigh(g, Everything(cfg))
  }

  ghost function UncountedBatch(): WorkerPc -> int {
    (pc: WorkerPc) => if pc.WCountBatch? then 1 else 0
  }

  ghost function UncountedSamples(): WorkerPc -> int {
    (pc: WorkerPc) => if pc.WCountBatch? || pc.WCountSamples? then SampleCount(pc.b) else 0
  }

  ghost function UncountedError(): WorkerPc -> int {
    (pc: WorkerPc) => if pc.WErrCount? then 1 else 0
  }

  /** samplesEmitted trails the generator by the batch it has not counted yet. */
  ghost predicate EmittedCounted(cfg: Config, gen: Generator)
    requires Runnable(cfg) && |gen.states| == |cfg.walks|
  {
    gen.emitted + (if gen.pc.GCount? then SampleCount(gen.pc.b) else 0) + |StillToGenerate(cfg, gen)|
        == |Everything(cfg)|
  }

  /** The pool's counters trail the facts by exactly what sits between a POST and its counting. */
  ghost predicate PoolCounted(pool: Pool) {
    && pool.batchCount + Total(UncountedBatch(), pool.workers) == |pool.acked|
    && pool.sampleCount + Total(UncountedSamples(), pool.workers) == Total(OfBatch(Size), pool.acked)
    && pool.errCount + Total(UncountedError(), pool.workers) == |pool.failed|
  }

  predicate Parked(pc: WorkerPc) {
    pc.WPark? || pc.WPolled? || pc.WReload?
  }

  ghost function Erring(): WorkerPc -> int {
    (pc: WorkerPc) => if pc.WErrCount? || pc.WErrStash? || pc.WErrCancel? then 1 else 0
  }

  /** The generator's position, the flags it owns and the bound on the queue. */
  ghost predicate GenOrderly(cfg: Config, s: State) {
    && |s.pool.queue| <= 2 * cfg.maxConcurrency
    && s.gen.batchStart <= Max(cfg.start, cfg.end)
    && (s.gen.pc.GAdvance? ==> s.gen.batchStart < cfg.end)
    && (s.flags.closed <==> s.gen.pc.GDone?)
    && (s.flags.draining <==> s.gen.pc.GClose? || s.gen.pc.GDone?)
    && (s.gen.pc.GDrain? || s.gen.pc.GClose? || s.gen.pc.GDone? ==> s.flags.cancelled || s.gen.batchStart >= cfg.end)
    && (s.gen.dropped != [] ==> s.flags.cancelled)
  }

  /** Worker 0 never parks, so without a cancellation it leaves only an exhausted channel. */
  ghost predicate WorkersOrderly(cfg: Config, s: State) {
    && |s.pool.workers| == cfg.maxConcurrency >= 1
    && !Parked(s.pool.workers[0])
    && (s.pool.workers[0].WDone? ==> s.flags.cancelled || (s.flags.closed && s.pool.queue == []))
    && (s.pool.failed != [] ==> s.flags.cancelled || Total(Erring(), s.pool.workers) > 0)
  }

  ghost predicate MainOrderly(cfg: Config, s: State) {
    && (!s.main.MWait? ==> AllDone(s.pool.workers))
    && (s.main.MSucceeded? ==>
          s.flags.closed && s.pool.queue == s.pool.failed == s.gen.dropped == [] && s.gen.batchStart >= cfg.end)
  }

  ghost predicate Orderly(cfg: Config, s: State) {
    TargetSafe(cfg.maxConcurrency, s.ctl) && GenOrderly(cfg, s) && WorkersOrderly(cfg, s) && MainOrderly(cfg, s)
  }

  // ---- Each invariant is kept by every step ---------------------------------------------

  lemma OrderlyAfterGen(cfg: Config, s: State, flag: bool)
    requires Runnable(cfg) && |s.gen.states| == |cfg.walks| && GenEnabled(cfg, s, flag) && Orderly(cfg, s)
    ensures Orderly(cfg, GenStep(cfg, s, flag))
  {
  }

  lemma OrderlyAfterWorker(cfg: Config, s: State, w: nat, flag: bool)
    requires Runnable(cfg) && WorkerEnabled(s, w, flag) && Orderly(cfg, s)
    ensures Orderly(cfg, WorkerStep(s, w, flag))
  {
    TotalUpdate(Erring(), s.pool.workers, w, WorkerMove(s, w, flag));
    TotalUpdate(Erring(), s.pool.workers, w, WGate);
    ErringNonNegative(s.pool.workers[w := WGate]);
  }

  lemma {:induction false} ErringNonNegative(workers: seq<WorkerPc>)
    ensures Total(Erring(), workers) >= 0
  {
    if workers != [] {
      ErringNonNegative(workers[1..]);
    }
  }

  lemma OrderlyAfterMain(cfg: Config, s: State)
    requires Runnable(cfg) && Enabled(cfg, s, MainStep) && Orderly(cfg, s)
    ensures Orderly(cfg, s.(main := MainMove(s.main, s.flags)))
  {
    TotalZero(Erring(), s.pool.workers);
  }

  lemma ConservedByGenerator(cfg: Config, s: State, flag: bool, g: Gauge)
    requires Runnable(cfg) && |s.gen.states| == |cfg.walks| && GenEnabled(cfg, s, flag) && GenOrderly(cfg, s)
        && Conserved(cfg, s, g)
    ensures Conserved(cfg, GenStep(cfg, s, flag), g)
  {
    match s.gen.pc
    case GAdvance => GeneratedBatchIsHeld(cfg, s.gen, g);
    case GSend(b) =>
      TotalConcat(OfBatch(g), s.pool.queue, [b]);
      TotalConcat(OfBatch(g), s.gen.dropped, [b]);
    case _ =>
  }

  /** Generating a batch moves its samples from the window into the generator's hand. */
  lemma GeneratedBatchIsHeld(cfg: Config, gen: Generator, g: Gauge)
    requires Runnable(cfg) && |gen.states| == |cfg.walks| && gen.pc.GAdvance? && gen.batchStart < cfg.end
    ensures GenSide(cfg, GenMove(cfg, gen, false, false), g) == GenSide(cfg, gen, g)
  {
    var batchEnd := BatchEnd(gen.batchStart, cfg.end, cfg.step, PointsPerBatch(cfg));
    var req := Request(cfg.walks, gen.states, gen.batchStart, batchEnd, cfg.step);
    var later := GenMove(cfg, gen, false, false);
    BatchSplit(cfg.walks, gen.states, gen.batchStart, cfg.end, cfg.step, PointsPerBatch(cfg));
    WeighAdds(g, Contents(req), StillToGenerate(cfg, later));
  }

  lemma WeighAdds(g: Gauge, a: multiset<Sample>, b: multiset<Sample>)
    ensures Weigh(g, a + b) == Weigh(g, a) + Weigh(g, b)
  {
  }

  lemma PoolSideKept(s: State, w: nat, flag: bool, g: Gauge)
    requires WorkerEnabled(s, w, flag)
    ensures PoolSide(WorkerStep(s, w, flag).pool, g) == PoolSide(s.pool, g)
  {
    TotalUpdate(InFlight(g), s.pool.workers, w, WorkerMove(s, w, flag));
    if s.pool.workers[w].WPost? {
      TotalConcat(OfBatch(g), s.pool.acked, [s.pool.workers[w].b]);
      TotalConcat(OfBatch(g), s.pool.failed, [s.pool.workers[w].b]);
    }
  }

  lemma GeneratedBatchIsCounted(cfg: Config, gen: Generator)
    requires Runnable(cfg) && |gen.states| == |cfg.walks| && gen.pc.GAdvance? && gen.batchStart < cfg.end
    ensures var later := GenMove(cfg, gen, false, false);
            && later.emitted == gen.emitted
            && (if later.pc.GCount? then SampleCount(later.pc.b) else 0) + |StillToGenerate(cfg, later)|
               == |StillToGenerate(cfg, gen)|
  {
    var batchEnd := BatchEnd(gen.batchStart, cfg.end, cfg.step, PointsPerBatch(cfg));
    var req := Request(cfg.walks, gen.states, gen.batchStart, batchEnd, cfg.step);
    BatchSplit(cfg.walks, gen.states, gen.batchStart, cfg.end, cfg.step, PointsPerBatch(cfg));
    SampleCountIsSize(req);
  }

  lemma EmittedCountedKept(cfg: Config, gen: Generator, cancelled: bool, flag: bool)
    requires Runnable(cfg) && |gen.states| == |cfg.walks| && EmittedCounted(cfg, gen)
        && (gen.pc.GAdvance? ==> gen.batchStart < cfg.end)
    ensures EmittedCounted(cfg, GenMove(cfg, gen, cancelled, flag))
  {
    if gen.pc.GAdvance? {
      GeneratedBatchIsCounted(cfg, gen);
    }
  }

  lemma PoolCountedKept(s: State, w: nat, flag: bool)
    requires WorkerEnabled(s, w, flag) && PoolCounted(s.pool)
    ensures PoolCounted(WorkerStep(s, w, flag).pool)
  {
    var pc := WorkerMove(s, w, flag);
    TotalUpdate(UncountedBatch(), s.pool.workers, w, pc);
    TotalUpdate(UncountedSamples(), s.pool.workers, w, pc);
    TotalUpdate(UncountedError(), s.pool.workers, w, pc);
    if s.pool.workers[w].WPost? {
      TotalConcat(OfBatch(Size), s.pool.acked, [s.pool.workers[w].b]);
      SampleCountIsSize(s.pool.workers[w].b);
    }
  }

  // ---- Safety over whole runs -----------------------------------------------------------

  ghost predicate Invariant(cfg: Config, s: State)
    requires Runnable(cfg) && |s.gen.states| == |cfg.walks|
  {
    && Orderly(cfg, s)
    && EmittedCounted(cfg, s.gen)
    && PoolCounted(s.pool)
    && forall g :: Conserved(cfg, s, g)
  }

  lemma InvariantAtStart(cfg: Config)
    requires Runnable(cfg)
    ensures Invariant(cfg, Init(cfg))
  {
    var workers := Init(cfg).pool.workers;
    InitialTargetInRange(cfg.noAdaptive, cfg.initialConcurrency, cfg.maxConcurrency);
    TotalZero(UncountedBatch(), workers);
    TotalZero(UncountedSamples(), workers);
    TotalZero(UncountedError(), workers);
    forall g
      ensures Conserved(cfg, Init(cfg), g)
    {
      TotalZero(InFlight(g), workers);
    }
  }

  lemma InvariantKept(cfg: Config, s: State, e: Event)
    requires Runnable(cfg) && |s.gen.states| == |cfg.walks| && Enabled(cfg, s, e) && Invariant(cfg, s)
    ensures Invariant(cfg, Step(cfg, s, e))
  {
    match e
    case Gen(flag) =>
      OrderlyAfterGen(cfg, s, flag);
      EmittedCountedKept(cfg, s.gen, s.flags.cancelled, flag);
      forall g
        ensures Conserved(cfg, GenStep(cfg, s, flag), g)
      {
        ConservedByGenerator(cfg, s, flag, g);
      }
    case Worker(w, flag) =>
      OrderlyAfterWorker(cfg, s, w, flag);
      PoolCountedKept(s, w, flag);
      forall g
        ensures Conserved(cfg, WorkerStep(s, w, flag), g)
      {
        assert Conserved(cfg, s, g);
        PoolSideKept(s, w, flag, g);
      }
    case MainStep =>
      OrderlyAfterMain(cfg, s);
      assert forall g :: Conserved(cfg, s, g) ==> Conserved(cfg, s.(main := MainMove(s.main, s.flags)), g);
    case Tune(step) =>
      TargetSafeKept(cfg.maxConcurrency, s.ctl, step);
      assert forall g :: Conserved(cfg, s, g) ==> Conserved(cfg, Step(cfg, s, e), g);
    case Cancel =>
      assert forall g :: Conserved(cfg, s, g) ==> Conserved(cfg, Step(cfg, s, e), g);
  }

  /** Every state of every run: whatever the interleaving, the throttling, the POST outcomes and
      the moment of a cancellation. */
  lemma {:induction false} EveryRunKeepsTheInvariant(cfg: Config, events: seq<Event>)
    requires Runnable(cfg) && After(cfg, events).Some?
    ensures Invariant(cfg, After(cfg, events).value)
  {
    if events == [] {
      InvariantAtStart(cfg);
    } else {
      var before := events[..|events| - 1];
      EveryRunKeepsTheInvariant(cfg, before);
      InvariantKept(cfg, After(cfg, before).value, events[|events| - 1]);
    }
  }

  /** How often a sample was acknowledged. */
  ghost function AckCount(s: State, x: Sample): int {
    Total(OfBatch(CountOf(x)), s.pool.acked)
  }

  /** How often one walk of series i over the whole window produces a point. */
  function Produced(cfg: Config, i: nat, p: Point): int
    requires Runnable(cfg)
  {
    if i < |cfg.walks| then multiset(Points(cfg.walks[i], cfg.states[i], cfg.start, cfg.end, cfg.step))[p] else 0
  }

  /** If runStream returns success, each sample of each series in [start, end) was acknowledged
      exactly as often as one walk over the window produces it, nothing else was, no batch is left
      in the channel or a worker, and the emitted and acknowledged counters agree. */
  lemma SuccessMeansDelivered(cfg: Config, events: seq<Event>)
    requires Runnable(cfg) && After(cfg, events).Some? && After(cfg, events).value.main.MSucceeded?
    ensures var s := After(cfg, events).value;
            && AllDone(s.pool.workers) && s.pool.queue == [] && s.gen.pc.GDone?
            && s.pool.failed == [] && s.pool.errCount == 0
            && s.pool.batchCount == |s.pool.acked|
            && s.gen.emitted == s.pool.sampleCount == |Everything(cfg)|
            && forall i: nat, p: Point ::
                 AckCount(s, Sample(i, p))
                 == Produced(cfg, i, p)
  {
    EveryRunKeepsTheInvariant(cfg, events);
    var s := After(cfg, events).value;
    EmptyWindow(cfg.walks, s.gen.states, s.gen.batchStart, cfg.end, cfg.step);
    TotalZero(UncountedBatch(), s.pool.workers);
    TotalZero(UncountedSamples(), s.pool.workers);
    TotalZero(UncountedError(), s.pool.workers);
    assert Conserved(cfg, s, Size);
    TotalZero(InFlight(Size), s.pool.workers);
    forall i: nat, p: Point
      ensures AckCount(s, Sample(i, p))
              == Produced(cfg, i, p)
    {
      var x := Sample(i, p);
      assert Conserved(cfg, s, CountOf(x));
      TotalZero(InFlight(CountOf(x)), s.pool.workers);
      BagCounts(cfg.walks, cfg.states, cfg.start, cfg.end, cfg.step, i, p);
    }
  }

  /** Exactly once also per timestamp: with a step of at least a millisecond, a successful run
      acknowledged at most one sample of a series at a given timestamp, and that one once. */
  lemma SuccessMeansOncePerTimestamp(cfg: Config, events: seq<Event>, i: nat, p: Point, q: Point)
    requires Runnable(cfg) && After(cfg, events).Some? && After(cfg, events).value.main.MSucceeded?
    requires cfg.step >= NANOS_PER_MILLI && p.timestamp == q.timestamp
    requires var s := After(cfg, events).value; AckCount(s, Sample(i, p)) > 0 && AckCount(s, Sample(i, q)) > 0
    ensures p == q && AckCount(After(cfg, events).value, Sample(i, p)) == 1
  {
    SuccessMeansDelivered(cfg, events);
    var pts := Points(cfg.walks[i], cfg.states[i], cfg.start, cfg.end, cfg.step);
    assert p in multiset(pts) && q in multiset(pts);
    TimestampsIncrease(cfg.walks[i], cfg.states[i], cfg.start, cfg.end, cfg.step);
    IncreasingOccursOnce(pts, p);
  }

  lemma {:induction false} IncreasingOccursOnce(pts: seq<Point>, p: Point)
    requires Increasing(pts)
    ensures multiset(pts)[p] <= 1
  {
    if pts != [] {
      var rest := pts[1..];
      assert pts == [pts[0]] + rest;
      IncreasingOccursOnce(rest, p);
      if pts[0] == p {
        assert forall j | 0 <= j < |rest| :: rest[j] == pts[j + 1] && rest[j] != p;
        assert p !in rest;
      }
    }
  }

  // ---- Progress -------------------------------------------------------------------------

  /** How many loop rounds of the generator are left. */
  ghost function RoundsLeft(cfg: Config, batchStart: int): nat
    requires Runnable(cfg)
    decreases cfg.end - batchStart
  {
    if batchStart >= cfg.end then 0
    else
      GridFirst(PointsPerBatch(cfg), cfg.step);
      1 + RoundsLeft(cfg, BatchEnd(batchStart, cfg.end, cfg.step, PointsPerBatch(cfg)))
  }

  ghost function GenRank(cfg: Config, gen: Generator): int
    requires Runnable(cfg)
  {
    var rounds := 2 * cfg.maxConcurrency + 3 + 13 * RoundsLeft(cfg, gen.batchStart);
    match gen.pc
    case GLoop => rounds
    case GAdvance => rounds - 1
    case GCount(_) => rounds + 11
    case GSend(_) => rounds + 10
    case GDrain => 2 * cfg.maxConcurrency + 2
    case GClose => 1
    case GDone => 0
  }

  /** Until the generator drains, a parked worker may poll for ever and its three polling positions
      rank the same; afterwards every poll brings it closer to its exit. */
  ghost function WorkerRank(draining: bool): WorkerPc -> int {
    (pc: WorkerPc) =>
      match pc
      case WGate => 6
      case WPark => if draining then 4 else 3
      case WPolled => 3
      case WReload => if draining then 5 else 3
      case WRecv => 2
      case WPost(_) => 9
      case WCountBatch(_) => 8
      case WCountSamples(_) => 7
      case WErrCount => 3
      case WErrStash => 2
      case WErrCancel => 1
      case WDone => 0
  }

  ghost function MainRank(main: MainPc): int {
    match main
    case MWait => 3
    case MCheckErr => 2
    case MCheckCtx => 1
    case _ => 0
  }

  /** Work left in the window, the queue, the workers and main. */
  ghost function Rank(cfg: Config, s: State): int
    requires Runnable(cfg)
  {
    GenRank(cfg, s.gen) + 8 * |s.pool.queue| + Total(WorkerRank(s.flags.draining), s.pool.workers) + MainRank(s.main)
  }

  lemma {:induction false} DrainingCostsAtMostTwoEach(workers: seq<WorkerPc>)
    ensures 0 <= Total(WorkerRank(true), workers) <= Total(WorkerRank(false), workers) + 2 * |workers|
    ensures 0 <= Total(WorkerRank(false), workers)
  {
    if workers != [] {
      DrainingCostsAtMostTwoEach(workers[1..]);
    }
  }

  lemma GenStepDescends(cfg: Config, s: State, flag: bool)
    requires Runnable(cfg) && |s.gen.states| == |cfg.walks| && GenEnabled(cfg, s, flag) && GenOrderly(cfg, s)
    requires |s.pool.workers| == cfg.maxConcurrency
    ensures Rank(cfg, GenStep(cfg, s, flag)) < Rank(cfg, s)
  {
    DrainingCostsAtMostTwoEach(s.pool.workers);
  }

  lemma WorkerStepDescends(cfg: Config, s: State, w: nat, flag: bool)
    requires Runnable(cfg) && WorkerEnabled(s, w, flag)
    ensures Rank(cfg, WorkerStep(s, w, flag)) <= Rank(cfg, s)
    ensures s.flags.draining || !Parked(s.pool.workers[w]) ==> Rank(cfg, WorkerStep(s, w, flag)) < Rank(cfg, s)
  {
    TotalUpdate(WorkerRank(s.flags.draining), s.pool.workers, w, WorkerMove(s, w, flag));
  }

  /** No event, and in particular no throttling, ever adds work. */
  lemma RankNeverRises(cfg: Config, s: State, e: Event)
    requires Runnable(cfg) && |s.gen.states| == |cfg.walks| && Enabled(cfg, s, e) && Orderly(cfg, s)
    ensures Rank(cfg, Step(cfg, s, e)) <= Rank(cfg, s)
  {
    match e
    case Gen(flag) => GenStepDescends(cfg, s, flag);
    case Worker(w, flag) => WorkerStepDescends(cfg, s, w, flag);
    case _ =>
  }

  ghost predicate Finished(s: State) {
    s.main.MFailed? || s.main.MSucceeded?
  }

  ghost predicate Moves(cfg: Config, s: State, e: Event)
    requires Runnable(cfg) && |s.gen.states| == |cfg.walks|
  {
    Enabled(cfg, s, e) && Rank(cfg, Step(cfg, s, e)) < Rank(cfg, s)
  }

  /** No deadlock: in every unfinished reachable state some step brings the run closer to its end,
      and until the channel is closed that step belongs to the generator or to worker 0, however
      low the target is. */
  lemma NeverStuck(cfg: Config, s: State) returns (e: Event)
    requires Runnable(cfg) && |s.gen.states| == |cfg.walks| && Orderly(cfg, s) && !Finished(s)
    ensures Moves(cfg, s, e)
    ensures !s.flags.closed ==> e.Gen? || (e.Worker? && e.w == 0)
  {
    if !s.gen.pc.GDone? && GenEnabled(cfg, s, false) {
      e := Gen(false);
      GenStepDescends(cfg, s, false);
    } else if s.gen.pc.GSend? && s.flags.cancelled {
      e := Gen(true);
      GenStepDescends(cfg, s, true);
    } else if !s.gen.pc.GDone? {
      e := Worker(0, false);
      WorkerStepDescends(cfg, s, 0, false);
    } else if AllDone(s.pool.workers) {
      e := MainStep;
    } else {
      var w: nat :| w < |s.pool.workers| && !s.pool.workers[w].WDone?;
      e := Worker(w, false);
      WorkerStepDescends(cfg, s, w, false);
    }
  }

  /** How many events of a run bring it closer to its end. */
  ghost function Moving(cfg: Config, events: seq<Event>): nat
    requires Runnable(cfg)
  {
    if events == [] then 0
    else
      var before := events[..|events| - 1];
      var s := After(cfg, before);
      Moving(cfg, before) + if s.Some? && Moves(cfg, s.value, events[|events| - 1]) then 1 else 0
  }

  lemma RankIsNatural(cfg: Config, s: State)
    requires Runnable(cfg) && (s.gen.pc.GAdvance? ==> s.gen.batchStart < cfg.end)
    ensures Rank(cfg, s) >= 0
  {
    DrainingCostsAtMostTwoEach(s.pool.workers);
  }

  /** The work is bounded: no run has more such events than the rank of its start. */
  lemma {:induction false} WorkIsBounded(cfg: Config, events: seq<Event>)
    requires Runnable(cfg) && After(cfg, events).Some?
    ensures Moving(cfg, events) + Rank(cfg, After(cfg, events).value) <= Rank(cfg, Init(cfg))
    ensures Moving(cfg, events) <= Rank(cfg, Init(cfg))
  {
    EveryRunKeepsTheInvariant(cfg, events);
    RankIsNatural(cfg, After(cfg, events).value);
    if events != [] {
      var before := events[..|events| - 1];
      WorkIsBounded(cfg, before);
      EveryRunKeepsTheInvariant(cfg, before);
      RankNeverRises(cfg, After(cfg, before).value, events[|events| - 1]);
    }
  }

  ghost predicate Untroubled(s: State) {
    && !s.flags.cancelled && !s.flags.genErr && !s.main.MFailed?
    && forall w | 0 <= w < |s.pool.workers| ::
         !s.pool.workers[w].WErrCount? && !s.pool.workers[w].WErrStash? && !s.pool.workers[w].WErrCancel?
  }

  /** Success is not only safe but the outcome: a run in which nobody cancels and no POST fails can
      finish in no other way. */
  lemma {:induction false} CleanRunsSucceed(cfg: Config, events: seq<Event>)
    requires Runnable(cfg) && After(cfg, events).Some?
    requires Cancel !in events && After(cfg, events).value.pool.failed == []
    ensures Untroubled(After(cfg, events).value)
    ensures Finished(After(cfg, events).value) ==> After(cfg, events).value.main.MSucceeded?
  {
    if events != [] {
      var before := events[..|events| - 1];
      assert forall e | e in before :: e in events;
      CleanRunsSucceed(cfg, before);
    }
  }

  // ---- The kill-switch over whole runs --------------------------------------------------

  /** Every regulator decision of the run falls before the deadline. */
  predicate TunesBefore(events: seq<Event>, deadline: int) {
    forall i | 0 <= i < |events| :: events[i].Tune? && events[i].step.RegDecide? ==> events[i].step.now < deadline
  }

  /** A run is its front and one more step. */
  lemma AfterOneMore(cfg: Config, front: seq<Event>, e: Event)
    requires Runnable(cfg)
    ensures var before := After(cfg, front);
            After(cfg, front + [e])
            == if before.Some? && Enabled(cfg, before.value, e) then Some(Step(cfg, before.value, e)) else None
  {
    assert (front + [e])[..|front + [e]| - 1] == front;
  }

  lemma CutHoldsAStep(cfg: Config, s: State, e: Event, c: int, deadline: int)
    requires Runnable(cfg) && |s.gen.states| == |cfg.walks| && Enabled(cfg, s, e)
    requires TargetSafe(cfg.maxConcurrency, s.ctl) && Contained(s.ctl, c) && s.ctl.freeze >= deadline
    requires e.Tune? && e.step.RegDecide? ==> e.step.now < deadline
    ensures Contained(Step(cfg, s, e).ctl, c) && Step(cfg, s, e).ctl.freeze >= s.ctl.freeze
  {
    if e.Tune? {
      FreezeNeverFalls(cfg.maxConcurrency, s.ctl, e.step);
      ContainedKept(cfg.maxConcurrency, s.ctl, e.step, c, deadline);
    }
  }

  /** A cut holds for as long as ramp-up is frozen: from any moment of any run at which the freeze
      reaches the deadline and nothing under way exceeds c, no continuation whose decisions fall
      before the deadline ever takes the target above c. */
  lemma {:induction false} CutHoldsWhileFrozen(cfg: Config, earlier: seq<Event>, later: seq<Event>, c: int,
      deadline: int)
    requires Runnable(cfg) && After(cfg, earlier + later).Some? && After(cfg, earlier).Some?
    requires Contained(After(cfg, earlier).value.ctl, c) && After(cfg, earlier).value.ctl.freeze >= deadline
    requires TunesBefore(later, deadline)
    ensures Contained(After(cfg, earlier + later).value.ctl, c)
    ensures After(cfg, earlier + later).value.ctl.freeze >= After(cfg, earlier).value.ctl.freeze
    decreases |later|
  {
    if later == [] {
      assert earlier + later == earlier;
    } else {
      var front, e := later[..|later| - 1], later[|later| - 1];
      assert earlier + later == (earlier + front) + [e];
      AfterOneMore(cfg, earlier + front, e);
      CutHoldsWhileFrozen(cfg, earlier, front, c, deadline);
      EveryRunKeepsTheInvariant(cfg, earlier + front);
      CutHoldsAStep(cfg, After(cfg, earlier + front).value, e, c, deadline);
    }
  }

  /** One more step of the two control threads. */
  lemma TunedTo(cfg: Config, front: seq<Event>, step: ControlEvent, before: Control, ctl: Control)
    requires Runnable(cfg) && After(cfg, front).Some? && After(cfg, front).value.ctl == before
    requires Enabled(cfg, After(cfg, front).value, Tune(step))
    requires ControlStep(cfg.maxConcurrency, before, step) == ctl
    ensures After(cfg, front + [Tune(step)]).Some? && After(cfg, front + [Tune(step)]).value.ctl == ctl
    ensures After(cfg, front + [Tune(step)]).value.(ctl := before) == After(cfg, front).value
  {
    AfterOneMore(cfg, front, Tune(step));
  }

  /** A reachable race: both threads loaded 8, the probe cuts the target to 2, and the regulator's
      pending store puts 9 in its place, although the probe has frozen ramp-up by then. */
  lemma KillSwitchCanBeOverwritten(cfg: Config, signals: Regulator.Signals, deadline: int)
    requires Runnable(cfg) && !cfg.noAdaptive && cfg.initialConcurrency == 8 && cfg.maxConcurrency >= 9
    requires signals.errPct == 0.0 && !signals.stallActive && signals.p50 == signals.p99 == signals.base == 1
    requires signals.rampAllowed && deadline > 0
    ensures var cut := After(cfg, RaceUpToFreeze(signals, deadline));
            cut.Some? && cut.value.ctl.target == 2 && cut.value.ctl.freeze == deadline
    ensures var end := After(cfg, RaceUpToFreeze(signals, deadline) + [Tune(RegStoreTarget)]);
            end.Some? && end.value.ctl.target == 9
  {
    var e1 := [Tune(RegLoad)];
    var e2 := e1 + [Tune(RegDecide(signals, 0))];
    var e3 := e2 + [Tune(ProbeLoad)];
    var e4 := e3 + [Tune(ProbeStore(deadline))];
    var e5 := e4 + [Tune(ProbeFreezeLoad)];
    var e6 := e5 + [Tune(ProbeFreezeSwap)];
    var e7 := e6 + [Tune(RegStoreTarget)];
    assert e6 == RaceUpToFreeze(signals, deadline);
    assert Regulator.Decide(Regulator.DefaultConfig(cfg.maxConcurrency), 8, signals) == (9, Regulator.RampUp);
    TunedTo(cfg, [], RegLoad, Init(cfg).ctl, Control(8, 0, RHeld(8), PIdle));
    assert [] + e1 == e1;
    TunedTo(cfg, e1, RegDecide(signals, 0), Control(8, 0, RHeld(8), PIdle), Control(8, 0, RStore(9), PIdle));
    TunedTo(cfg, e2, ProbeLoad, Control(8, 0, RStore(9), PIdle), Control(8, 0, RStore(9), PHeld(8)));
    TunedTo(cfg, e3, ProbeStore(deadline), Control(8, 0, RStore(9), PHeld(8)),
            Control(2, 0, RStore(9), PFreezeLoad(deadline)));
    TunedTo(cfg, e4, ProbeFreezeLoad, Control(2, 0, RStore(9), PFreezeLoad(deadline)),
            Control(2, 0, RStore(9), PFreezeSwap(deadline, 0)));
    TunedTo(cfg, e5, ProbeFreezeSwap, Control(2, 0, RStore(9), PFreezeSwap(deadline, 0)),
            Control(2, deadline, RStore(9), PIdle));
    TunedTo(cfg, e6, RegStoreTarget, Control(2, deadline, RStore(9), PIdle), Control(9, deadline, RIdle, PIdle));
  }

  function RaceUpToFreeze(signals: Regulator.Signals, deadline: int): seq<Event> {
    [Tune(RegLoad), Tune(RegDecide(signals, 0)), Tune(ProbeLoad),
     Tune(ProbeStore(deadline)), Tune(ProbeFreezeLoad), Tune(ProbeFreezeSwap)]
  }
}
