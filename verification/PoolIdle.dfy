/** An idle pool converges to min by halving: a closed form for every run. */
module PoolIdle {
  import opened Wrappers
  import opened Pool
  import opened PoolSafety
  import opened PoolShutdown
  import opened Powers
  import opened PoolScaling
  import opened PoolFloor
  import opened PoolReach

  /** The load stays below maxLoad, and each scale-down is decided with no token out. */
  predicate IdleStep<T>(cfg: Config, s: State<T>, a: Action<T>) {
    a == Scale(LoadLast) && s.scaler.ReadTime? && s.scaler.active != 0 ==>
      var next := Decide(cfg, s.scaler.active, s.scaler.busy, s.scaler.now, s.last);
      next == Waiting || (next.Deflating? && s.scaler.backlog == Backlog(0, 0))
  }

  ghost predicate IdleRun<T>(cfg: Config, s: State<T>, run: seq<Action<T>>)
    decreases |run|
  {
    run == []
    || (Enabled(cfg, s, run[0]) && IdleStep(cfg, s, run[0]) && IdleRun(cfg, Next(cfg, s, run[0]), run[1..]))
  }

  /** Start has launched everyone, all are counted, and no token is out. */
  ghost predicate Settled<T>(cfg: Config, s: State<T>) {
    && Tally(s.workers, Launched) == 0 && StarterLeft(cfg, s) == 0 && !s.starter.InitialGo?
    && s.scaler == Waiting && Outstanding(s) == 0
  }

  ghost predicate Loaded<T>(cfg: Config, s: State<T>) {
    s.scaler.LoadedActive? || s.scaler.LoadedBusy? || s.scaler.ReadTime? ==>
      && s.scaler.active <= cfg.max
      && s.scaler.active - s.scaler.backlog.queued - s.scaler.backlog.taken == s.active - Outstanding(s)
      && Outstanding(s) <= s.scaler.backlog.queued + s.scaler.backlog.taken
  }

  /** After k scale-downs from `from` workers, the workers not told to go are AfterScaleDowns(from, min, k). */
  ghost predicate Sinking<T>(cfg: Config, s: State<T>, from: nat, k: nat) {
    Undisturbed(s) ==>
      && Tally(s.workers, Launched) == 0 && StarterLeft(cfg, s) == 0 && !s.starter.InitialGo?
      && !s.scaler.Spawning? && !s.scaler.Launching?
      && s.active - Outstanding(s) - ToSend(s) == AfterScaleDowns(from, cfg.min, k)
      && Outstanding(s) + ToSend(s) <= cfg.max - cfg.min
      && Loaded(cfg, s)
  }

  /** The scale-downs a step decides. */
  function Grown<T>(cfg: Config, s: State<T>, a: Action<T>): int
    requires Enabled(cfg, s, a)
  {
    |Next(cfg, s, a).log.decisions| - |s.log.decisions|
  }

  lemma SinkClient<T>(cfg: Config, s: State<T>, a: ClientAction<T>, from: nat, k: nat)
    requires Sinking(cfg, s, from, k) && ClientEnabled(cfg, s, a)
    ensures Sinking(cfg, ClientNext(cfg, s, a), from, k)
    ensures ClientNext(cfg, s, a).log.decisions == s.log.decisions
  {
    hide Tally, AfterScaleDowns;
  }

  lemma SinkStart<T>(cfg: Config, s: State<T>, a: StartAction, from: nat, k: nat)
    requires Sinking(cfg, s, from, k) && StartEnabled(s, a)
    ensures Sinking(cfg, StartNext(cfg, s, a), from, k)
    ensures StartNext(cfg, s, a).log.decisions == s.log.decisions
  {
    hide Tally, AfterScaleDowns;
    TallyAppend(s.workers, Load, Launched);
    TallyAppend(s.workers, Load, Deflated);
  }

  lemma SinkScale<T>(cfg: Config, s: State<T>, a: ScalerAction, from: nat, k: nat)
    requires cfg.min >= 1 && Sinking(cfg, s, from, k) && CountersExact(cfg, s) && ScalerEnabled(s, a) && !a.LoadLast?
    ensures Sinking(cfg, ScalerNext(cfg, s, a), from, k)
    ensures ScalerNext(cfg, s, a).log.decisions == s.log.decisions
  {
    hide Tally, AfterScaleDowns;
  }

  lemma SinkDecide<T>(cfg: Config, s: State<T>, from: nat, k: nat)
    requires cfg.min >= 1 && Sinking(cfg, s, from, k) && ScalerEnabled(s, LoadLast) && IdleStep(cfg, s, Scale(LoadLast))
    ensures var t := ScalerNext(cfg, s, LoadLast);
            if t.scaler == Waiting then Sinking(cfg, t, from, k) && t.log.decisions == s.log.decisions
            else Sinking(cfg, t, from, k + 1) && |t.log.decisions| == |s.log.decisions| + 1
  {
    hide Tally, Decide;
  }

  lemma SinkSame<T>(cfg: Config, s: State<T>, t: State<T>, from: nat, k: nat)
    requires Sinking(cfg, s, from, k) && (Undisturbed(t) ==> Undisturbed(s))
    requires t.active == s.active && t.tokens == s.tokens && t.scaler == s.scaler && t.starter == s.starter
    requires Tally(t.workers, Launched) == Tally(s.workers, Launched)
    requires Tally(t.workers, Deflated) == Tally(s.workers, Deflated)
    ensures Sinking(cfg, t, from, k)
  {
    hide Tally, AfterScaleDowns, Undisturbed;
  }

  lemma SinkRest<T>(cfg: Config, s: State<T>, i: nat, w: WorkerAction, from: nat, k: nat)
    requires Sinking(cfg, s, from, k) && WorkerEnabled(cfg, s, i, w)
    requires !w.LoadCount? && !w.TryCas? && !w.TakeToken? && !w.DecActive?
    ensures Sinking(cfg, WorkerNext(cfg, s, i, w), from, k)
  {
    hide Tally, AfterScaleDowns, Sinking, WorkerNext;
    WorkLeaves(cfg, s, i, w);
    TallyUpdate(s.workers, i, WorkerPc(cfg, s, i, w), Launched);
    TallyUpdate(s.workers, i, WorkerPc(cfg, s, i, w), Deflated);
    SinkSame(cfg, s, WorkerNext(cfg, s, i, w), from, k);
  }

  lemma SinkCount<T>(cfg: Config, s: State<T>, i: nat, w: WorkerAction, from: nat, k: nat)
    requires Sinking(cfg, s, from, k) && Quitters(s) && WorkerEnabled(cfg, s, i, w)
    requires w.LoadCount? || w.TryCas? || w.TakeToken? || w.DecActive?
    ensures Sinking(cfg, WorkerNext(cfg, s, i, w), from, k)
  {
    hide Tally, AfterScaleDowns, Quitters;
    QuitterAt(s, i);
    TallyUpdate(s.workers, i, WorkerPc(cfg, s, i, w), Launched);
    TallyUpdate(s.workers, i, WorkerPc(cfg, s, i, w), Deflated);
  }

  lemma SinkWork<T>(cfg: Config, s: State<T>, i: nat, w: WorkerAction, from: nat, k: nat)
    requires Sinking(cfg, s, from, k) && Quitters(s) && WorkerEnabled(cfg, s, i, w)
    ensures Sinking(cfg, WorkerNext(cfg, s, i, w), from, k)
    ensures WorkerNext(cfg, s, i, w).log.decisions == s.log.decisions
  {
    hide Sinking, Quitters, WorkerNext, WorkerEnabled;
    WorkLeaves(cfg, s, i, w);
    if w.LoadCount? || w.TryCas? || w.TakeToken? || w.DecActive? {
      SinkCount(cfg, s, i, w, from, k);
    } else {
      SinkRest(cfg, s, i, w, from, k);
    }
  }

  lemma SinkStep<T>(cfg: Config, s: State<T>, a: Action<T>, from: nat, k: nat)
    requires cfg.min >= 1 && Sinking(cfg, s, from, k) && Quitters(s) && CountersExact(cfg, s)
    requires Enabled(cfg, s, a) && IdleStep(cfg, s, a)
    ensures Grown(cfg, s, a) >= 0 && Sinking(cfg, Next(cfg, s, a), from, k + Grown(cfg, s, a))
  {
    hide Sinking, Quitters, CountersExact, IdleStep, ClientNext, StartNext, ScalerNext, WorkerNext, ClientEnabled,
      StartEnabled, ScalerEnabled, WorkerEnabled;
    match a
    case Client(b) => SinkClient(cfg, s, b, from, k);
    case Start(b) => SinkStart(cfg, s, b, from, k);
    case Scale(b) =>
      if b.LoadLast? {
        SinkDecide(cfg, s, from, k);
      } else {
        SinkScale(cfg, s, b, from, k);
      }
    case Work(i, w) => SinkWork(cfg, s, i, w, from, k);
  }

  lemma {:induction false} SinkRun<T>(cfg: Config, s: State<T>, run: seq<Action<T>>, from: nat, k: nat)
    requires cfg.min >= 1 && Sinking(cfg, s, from, k) && Quitters(s) && Safe(cfg, s) && IdleRun(cfg, s, run)
    ensures Run(cfg, s, run).Some?
    ensures var t := Run(cfg, s, run).value;
            |t.log.decisions| >= |s.log.decisions|
            && Sinking(cfg, t, from, k + |t.log.decisions| - |s.log.decisions|)
    decreases |run|
  {
    hide Next, Enabled, Sinking, Quitters, IdleStep, CountersExact, Conserved, DropsBounded, ErrorsTraced;
    if run != [] {
      var n := Next(cfg, s, run[0]);
      SinkStep(cfg, s, run[0], from, k);
      QuittersStep(cfg, s, run[0]);
      SafeStep(cfg, s, run[0]);
      SinkRun(cfg, n, run[1..], from, k + Grown(cfg, s, run[0]));
    }
  }

  lemma ReachableSafe<T(!new)>(cfg: Config, s: State<T>)
    requires cfg.Valid() && Reachable(cfg, s)
    ensures Safe(cfg, s) && Quitters(s)
  {
    hide Run, Safe, Quitters, FloorKept;
    var run :| Run(cfg, Initially<T>(), run) == Some(s);
    SafeInitially<T>(cfg);
    StartsFull(cfg, Initially<T>());
    SafeRun(cfg, Initially<T>(), run);
    FloorRun(cfg, Initially<T>(), run);
  }

  /** Idle convergence, in every run: from a settled pool of at least min workers, after k scale-downs each
      decided with no token out, the workers not told to go number max(min, ceil(active / 2^k)). So the pool
      reaches min after exactly the least k with active <= min * 2^k, and never undershoots it. */
  lemma IdleConverges<T(!new)>(cfg: Config, s: State<T>, run: seq<Action<T>>)
    requires cfg.Valid() && cfg.min >= 1 && Reachable(cfg, s) && Settled(cfg, s) && s.active >= cfg.min
    requires IdleRun(cfg, s, run)
    ensures Run(cfg, s, run).Some? && |Run(cfg, s, run).value.log.decisions| >= |s.log.decisions|
    ensures var t := Run(cfg, s, run).value;
            var k := |t.log.decisions| - |s.log.decisions|;
            var left := t.active - Outstanding(t) - ToSend(t);
            Undisturbed(t) ==>
              && left == (if CeilDiv(s.active, Pow2(k)) > cfg.min then CeilDiv(s.active, Pow2(k)) else cfg.min)
              && (left == cfg.min <==> s.active <= cfg.min * Pow2(k))
  {
    hide Run, IdleRun, Tally, Reachable, Quitters, Conserved, DropsBounded, ErrorsTraced;
    ReachableSafe(cfg, s);
    SinkRun(cfg, s, run, s.active, 0);
    var k := |Run(cfg, s, run).value.log.decisions| - |s.log.decisions|;
    Converges(s.active, cfg.min, k);
    ReachesMin(s.active, cfg.min, k);
  }
}
