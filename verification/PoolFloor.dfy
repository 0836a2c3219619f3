/** The floor: how many workers the pool keeps as long as nothing asks it to stop. */
module PoolFloor {
  import opened Wrappers
  import opened Pool
  import opened PoolSafety
  import opened PoolShutdown
  import opened PoolTokens

  function Pos(n: int): nat {
    if n > 0 then n else 0
  }

  /** No cancellation, no failed handler, no Close so far. */
  predicate Undisturbed<T>(s: State<T>) {
    !s.canceled && !s.closed && !s.log.failed
  }

  /** Initial workers that Start has not started yet. */
  function StarterLeft<T>(cfg: Config, s: State<T>): nat {
    match s.starter
    case Starting => Pos(cfg.min)
    case StartingScaler => Pos(cfg.min)
    case Initial(left) => Pos(left)
    case InitialGo(left) => Pos(left)
    case _ => 0
  }

  /** The workers there will be once every start under way has succeeded and every token out has been obeyed. */
  function Promised<T>(cfg: Config, s: State<T>): int {
    s.active + Tally(s.workers, Launched) + StarterLeft(cfg, s) - Outstanding(s)
  }

  function ToSend<T>(s: State<T>): nat {
    if s.scaler.Deflating? then Pos(s.scaler.left) else 0
  }

  /** A worker about to be uncounted that did not take a token was told to stop. */
  ghost predicate Quitters<T>(s: State<T>) {
    Undisturbed(s) ==>
      !s.stopping
      && forall i :: 0 <= i < |s.workers| ==>
           (s.workers[i].Return? ==> s.workers[i].token) && !s.workers[i].ClosedSeen?
           && (s.workers[i].Leave? ==> !s.workers[i].failed)
  }

  /** While the autoscaler makes up its mind, the workers minus the tokens out do not shrink. */
  ghost predicate LoadFresh<T>(cfg: Config, s: State<T>) {
    s.scaler.LoadedActive? || s.scaler.LoadedBusy? || s.scaler.ReadTime? ==>
      && s.scaler.active <= cfg.max
      && Outstanding(s) <= s.scaler.backlog.queued + s.scaler.backlog.taken
      && s.scaler.active - s.scaler.backlog.queued - s.scaler.backlog.taken <= s.active - Outstanding(s)
  }

  ghost predicate Kept<T>(cfg: Config, s: State<T>) {
    && LoadFresh(cfg, s)
    && Promised(cfg, s) - ToSend(s) >= cfg.min
    && (Outstanding(s) + ToSend(s) <= Pos(cfg.max - cfg.min))
  }

  ghost predicate FloorKept<T>(cfg: Config, s: State<T>) {
    Undisturbed(s) && Careful(cfg, s.log.downs) ==> Kept(cfg, s)
  }

  // ----- quitters -----

  lemma QuittersWork<T>(cfg: Config, s: State<T>, i: nat, w: WorkerAction)
    requires Quitters(s) && DropsBounded(cfg, s) && ErrorsTraced(s) && WorkerEnabled(cfg, s, i, w)
    ensures Quitters(WorkerNext(cfg, s, i, w))
  {
    hide Tally, StartTraced, Genuine;
  }

  lemma QuittersOther<T>(s: State<T>, t: State<T>)
    requires Quitters(s)
    requires t.workers == s.workers || t.workers == s.workers + [Load]
    requires t.stopping == s.stopping && (Undisturbed(t) ==> Undisturbed(s))
    ensures Quitters(t)
  {
  }

  lemma QuittersClient<T>(cfg: Config, s: State<T>, a: ClientAction<T>)
    requires Quitters(s) && ClientEnabled(cfg, s, a)
    ensures Quitters(ClientNext(cfg, s, a))
  {
    hide Quitters;
    match a
    case Send(_) => QuittersOther(s, ClientNext(cfg, s, a));
    case CancelParent => QuittersOther(s, ClientNext(cfg, s, a));
    case _ => QuittersOther(s, ClientNext(cfg, s, a));
  }

  lemma QuittersStart<T>(cfg: Config, s: State<T>, a: StartAction)
    requires Quitters(s) && StartEnabled(s, a)
    ensures Quitters(StartNext(cfg, s, a))
  {
    hide Quitters;
    QuittersOther(s, StartNext(cfg, s, a));
  }

  lemma QuittersScale<T>(cfg: Config, s: State<T>, a: ScalerAction)
    requires Quitters(s) && ScalerEnabled(s, a)
    ensures Quitters(ScalerNext(cfg, s, a))
  {
    hide Quitters, ScalerMove, ScalerNext, ScalerEnabled;
    ScaleLeaves(cfg, s, a);
    ScaleEffects(cfg, s, a);
    QuittersOther(s, ScalerNext(cfg, s, a));
  }

  lemma QuittersStep<T>(cfg: Config, s: State<T>, a: Action<T>)
    requires Quitters(s) && DropsBounded(cfg, s) && ErrorsTraced(s) && Enabled(cfg, s, a)
    ensures Quitters(Next(cfg, s, a))
  {
    hide Quitters, DropsBounded, ErrorsTraced, ClientNext, StartNext, ScalerNext, WorkerNext, ClientEnabled,
      StartEnabled, ScalerEnabled, WorkerEnabled;
    match a
    case Client(b) => QuittersClient(cfg, s, b);
    case Start(b) => QuittersStart(cfg, s, b);
    case Scale(b) => QuittersScale(cfg, s, b);
    case Work(i, w) => QuittersWork(cfg, s, i, w);
  }

  // ----- the floor -----

  lemma QuitterAt<T>(s: State<T>, i: nat)
    requires Quitters(s)
    ensures i < |s.workers| && Undisturbed(s) && s.workers[i].Return? ==> s.workers[i].token
  {
  }

  lemma FloorClient<T>(cfg: Config, s: State<T>, a: ClientAction<T>)
    requires FloorKept(cfg, s) && ClientEnabled(cfg, s, a)
    ensures FloorKept(cfg, ClientNext(cfg, s, a))
  {
    hide Tally;
  }

  lemma FloorStart<T>(cfg: Config, s: State<T>, a: StartAction)
    requires FloorKept(cfg, s) && Quitters(s) && StartEnabled(s, a)
    ensures FloorKept(cfg, StartNext(cfg, s, a))
  {
    hide Tally;
    TallyAppend(s.workers, Load, Launched);
    TallyAppend(s.workers, Load, Deflated);
  }

  lemma CoveredMeans(cfg: Config, d: Down)
    requires Covered(cfg, d)
    ensures d.active - d.backlog.queued - d.backlog.taken - d.asked >= cfg.min
  {
  }

  lemma FloorDecide<T>(cfg: Config, s: State<T>)
    requires FloorKept(cfg, s) && ScalerEnabled(s, LoadLast)
    ensures FloorKept(cfg, ScalerNext(cfg, s, LoadLast))
  {
    hide Tally, Decide, Removal, Covered;
    var downs := s.log.downs;
    var t := ScalerNext(cfg, s, LoadLast);
    if Careful(cfg, t.log.downs) {
      assert forall i :: 0 <= i < |downs| ==> Covered(cfg, t.log.downs[i]) && t.log.downs[i] == downs[i];
      if |t.log.downs| > |downs| {
        CoveredMeans(cfg, t.log.downs[|downs|]);
      }
    }
  }

  lemma FloorScale<T>(cfg: Config, s: State<T>, a: ScalerAction)
    requires FloorKept(cfg, s) && CountersExact(cfg, s) && ScalerEnabled(s, a) && !a.LoadLast?
    ensures FloorKept(cfg, ScalerNext(cfg, s, a))
  {
    hide Tally, Careful, ScalerNext;
    ScaleRecords(cfg, s, a);
    ScaleLeaves(cfg, s, a);
    ScaleEffects(cfg, s, a);
    TallyAppend(s.workers, Load, Launched);
    TallyAppend(s.workers, Load, Deflated);
  }

  /** A started worker gets counted, or aborts at max. */
  lemma FloorJoin<T>(cfg: Config, s: State<T>, i: nat, w: WorkerAction)
    requires cfg.min <= cfg.max && FloorKept(cfg, s) && CountersExact(cfg, s) && WorkerEnabled(cfg, s, i, w)
    requires Undisturbed(s) && s.workers[i].Return? ==> s.workers[i].token
    requires w.LoadCount? || w.TryCas?
    ensures FloorKept(cfg, WorkerNext(cfg, s, i, w))
  {
    hide Tally;
    TallyUpdate(s.workers, i, WorkerPc(cfg, s, i, w), Launched);
    TallyUpdate(s.workers, i, WorkerPc(cfg, s, i, w), Deflated);
  }

  /** A worker takes a token, or obeys it. */
  lemma FloorLeave<T>(cfg: Config, s: State<T>, i: nat, w: WorkerAction)
    requires cfg.min <= cfg.max && FloorKept(cfg, s) && CountersExact(cfg, s) && WorkerEnabled(cfg, s, i, w)
    requires Undisturbed(s) && s.workers[i].Return? ==> s.workers[i].token
    requires w.TakeToken? || w.DecActive?
    ensures FloorKept(cfg, WorkerNext(cfg, s, i, w))
  {
    hide Tally;
    TallyUpdate(s.workers, i, WorkerPc(cfg, s, i, w), Launched);
    TallyUpdate(s.workers, i, WorkerPc(cfg, s, i, w), Deflated);
  }

  lemma FloorSame<T>(cfg: Config, s: State<T>, t: State<T>)
    requires FloorKept(cfg, s) && (Undisturbed(t) ==> Undisturbed(s))
    requires t.active == s.active && t.tokens == s.tokens && t.scaler == s.scaler && t.starter == s.starter
    requires t.log.downs == s.log.downs && Tally(t.workers, Launched) == Tally(s.workers, Launched)
    requires Tally(t.workers, Deflated) == Tally(s.workers, Deflated)
    ensures FloorKept(cfg, t)
  {
    hide Tally, Careful, Undisturbed;
  }

  /** Every other step of a worker leaves the counts alone, or disturbs the pool. */
  lemma FloorRest<T>(cfg: Config, s: State<T>, i: nat, w: WorkerAction)
    requires FloorKept(cfg, s) && WorkerEnabled(cfg, s, i, w)
    requires !w.LoadCount? && !w.TryCas? && !w.TakeToken? && !w.DecActive?
    ensures FloorKept(cfg, WorkerNext(cfg, s, i, w))
  {
    hide Tally, FloorKept, WorkerNext;
    WorkLeaves(cfg, s, i, w);
    TallyUpdate(s.workers, i, WorkerPc(cfg, s, i, w), Launched);
    TallyUpdate(s.workers, i, WorkerPc(cfg, s, i, w), Deflated);
    FloorSame(cfg, s, WorkerNext(cfg, s, i, w));
  }

  lemma FloorWork<T>(cfg: Config, s: State<T>, i: nat, w: WorkerAction)
    requires cfg.min <= cfg.max && FloorKept(cfg, s) && Quitters(s) && CountersExact(cfg, s)
    requires WorkerEnabled(cfg, s, i, w)
    ensures FloorKept(cfg, WorkerNext(cfg, s, i, w))
  {
    hide FloorKept, Quitters, CountersExact, WorkerNext;
    QuitterAt(s, i);
    match w
    case LoadCount => FloorJoin(cfg, s, i, w);
    case TryCas => FloorJoin(cfg, s, i, w);
    case TakeToken => FloorLeave(cfg, s, i, w);
    case DecActive => FloorLeave(cfg, s, i, w);
    case _ => FloorRest(cfg, s, i, w);
  }

  lemma FloorStep<T>(cfg: Config, s: State<T>, a: Action<T>)
    requires cfg.min <= cfg.max && FloorKept(cfg, s) && Quitters(s) && Safe(cfg, s) && Enabled(cfg, s, a)
    ensures FloorKept(cfg, Next(cfg, s, a)) && Quitters(Next(cfg, s, a))
  {
    hide FloorKept, Quitters, ClientNext, StartNext, ScalerNext, WorkerNext, ClientEnabled, StartEnabled,
      ScalerEnabled, WorkerEnabled, CountersExact, Conserved, DropsBounded, ErrorsTraced;
    QuittersStep(cfg, s, a);
    match a
    case Client(b) => FloorClient(cfg, s, b);
    case Start(b) => FloorStart(cfg, s, b);
    case Scale(b) =>
      if b.LoadLast? {
        FloorDecide(cfg, s);
      } else {
        FloorScale(cfg, s, b);
      }
    case Work(i, w) => FloorWork(cfg, s, i, w);
  }

  lemma {:induction false} FloorRun<T>(cfg: Config, s: State<T>, run: seq<Action<T>>)
    requires cfg.min <= cfg.max && FloorKept(cfg, s) && Quitters(s) && Safe(cfg, s)
    ensures Run(cfg, s, run).Some? ==>
              FloorKept(cfg, Run(cfg, s, run).value) && Quitters(Run(cfg, s, run).value)
    decreases |run|
  {
    hide Next, Enabled, FloorKept, Quitters, Safe;
    if run != [] && Enabled(cfg, s, run[0]) {
      FloorStep(cfg, s, run[0]);
      SafeStep(cfg, s, run[0]);
      FloorRun(cfg, Next(cfg, s, run[0]), run[1..]);
    }
  }

  /** The floor: as long as nothing asks the pool to stop and every scale-down was decided on a load that
      covered the tokens still out, at least min workers are counted, being started, or still to be started
      beyond the tokens out, at every step, surplus starts that abort at max included. */
  lemma FloorAlways<T>(cfg: Config, run: seq<Action<T>>)
    requires cfg.Valid() && Run(cfg, Initially<T>(), run).Some?
    ensures var s := Run(cfg, Initially<T>(), run).value;
            Undisturbed(s) && Careful(cfg, s.log.downs) ==> Promised(cfg, s) >= cfg.min
  {
    hide Run, Tally, Safe, Quitters, LoadFresh;
    SafeInitially<T>(cfg);
    StartsFull(cfg, Initially<T>());
    FloorRun(cfg, Initially<T>(), run);
  }

  lemma StartsFull<T>(cfg: Config, s: State<T>)
    requires cfg.min <= cfg.max && s.workers == [] && s.active == 0 && s.tokens == 0 && !s.stopping
    requires s.scaler == Absent && s.starter == Starting
    ensures FloorKept(cfg, s) && Quitters(s)
  {
    hide Tally;
    TallyNone(s.workers, Launched);
    TallyNone(s.workers, Deflated);
  }

  /** In particular, the floor holds in every undisturbed run whose scale-downs were all decided with no token
      out, in the channel or taken. */
  lemma FloorDrained<T>(cfg: Config, run: seq<Action<T>>)
    requires cfg.Valid() && Run(cfg, Initially<T>(), run).Some?
    ensures var s := Run(cfg, Initially<T>(), run).value;
            Undisturbed(s) && Drained(s.log.downs) ==> Promised(cfg, s) >= cfg.min
  {
    hide Run, Initially, Promised, Removal;
    FloorAlways(cfg, run);
    var downs := Run(cfg, Initially<T>(), run).value.log.downs;
    if Drained(downs) {
      forall i | 0 <= i < |downs|
        ensures Covered(cfg, downs[i])
      {
        EmitsAlways(cfg, run, i);
      }
    }
  }
}
