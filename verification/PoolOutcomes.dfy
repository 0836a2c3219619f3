/** What must happen: a failed handler ends the pool, a closed pool refuses to submit and to start, and a
    stopping one launches nobody. */
module PoolOutcomes {
  import opened Wrappers
  import opened Pool
  import opened PoolSafety
  import opened PoolShutdown

  // ----- handler failures -----

  /** The worker brings a handler's error. */
  predicate Carries(pc: Pc) {
    || (pc.Leave? && pc.failed)
    || (pc.Return? && pc.err.Some? && pc.err.value.HandlerError?)
    || (pc.Exit? && pc.err.Some? && pc.err.value.HandlerError?)
  }

  /** A failure is on its way to the group, or the group has recorded an error and is canceled. */
  ghost predicate Surfacing<T>(s: State<T>) {
    s.log.failed ==>
      (s.canceled && s.firstErr.Some?) || exists i :: 0 <= i < |s.workers| && Carries(s.workers[i])
  }

  lemma CarriesOn<T>(cfg: Config, s: State<T>, i: nat, w: WorkerAction)
    requires WorkerEnabled(cfg, s, i, w) && Carries(s.workers[i])
    ensures Carries(WorkerPc(cfg, s, i, w)) || (w.Record? && s.workers[i].err.Some?)
  {
  }

  lemma FailureStarts<T>(cfg: Config, s: State<T>, i: nat)
    requires WorkerEnabled(cfg, s, i, EndHandler(true))
    ensures Carries(WorkerPc(cfg, s, i, EndHandler(true)))
  {
  }

  lemma SurfacingWork<T>(cfg: Config, s: State<T>, i: nat, w: WorkerAction)
    requires Surfacing(s) && WorkerEnabled(cfg, s, i, w)
    ensures Surfacing(WorkerNext(cfg, s, i, w))
  {
    hide Carries, WorkerNext, WorkerPc;
    WorkLeaves(cfg, s, i, w);
    WorkOnly(cfg, s, i, w);
    var t := WorkerNext(cfg, s, i, w);
    if w == EndHandler(true) {
      FailureStarts(cfg, s, i);
      assert Carries(t.workers[i]);
    } else if s.log.failed && !(s.canceled && s.firstErr.Some?) {
      var k :| 0 <= k < |s.workers| && Carries(s.workers[k]);
      if k == i {
        CarriesOn(cfg, s, i, w);
      }
      assert t.workers[k] == if k == i then WorkerPc(cfg, s, i, w) else s.workers[k];
    }
  }

  lemma SurfacingOther<T>(s: State<T>, t: State<T>)
    requires Surfacing(s) && |t.workers| >= |s.workers| && t.workers[..|s.workers|] == s.workers
    requires t.log.failed == s.log.failed && (s.canceled ==> t.canceled) && (s.firstErr.Some? ==> t.firstErr.Some?)
    ensures Surfacing(t)
  {
    hide Carries;
    if s.log.failed && !(s.canceled && s.firstErr.Some?) {
      var k :| 0 <= k < |s.workers| && Carries(s.workers[k]);
      assert t.workers[k] == t.workers[..|s.workers|][k];
    }
  }

  lemma SurfacingClient<T>(cfg: Config, s: State<T>, a: ClientAction<T>)
    requires Surfacing(s) && ClientEnabled(cfg, s, a)
    ensures Surfacing(ClientNext(cfg, s, a))
  {
    hide Surfacing;
    SurfacingOther(s, ClientNext(cfg, s, a));
  }

  lemma SurfacingStart<T>(cfg: Config, s: State<T>, a: StartAction)
    requires Surfacing(s) && StartEnabled(s, a)
    ensures Surfacing(StartNext(cfg, s, a))
  {
    hide Surfacing;
    SurfacingOther(s, StartNext(cfg, s, a));
  }

  lemma SurfacingScale<T>(cfg: Config, s: State<T>, a: ScalerAction)
    requires Surfacing(s) && ScalerEnabled(s, a)
    ensures Surfacing(ScalerNext(cfg, s, a))
  {
    hide Surfacing, ScalerNext, ScalerEnabled;
    ScaleLeaves(cfg, s, a);
    ScaleEffects(cfg, s, a);
    SurfacingOther(s, ScalerNext(cfg, s, a));
  }

  lemma SurfacingStep<T>(cfg: Config, s: State<T>, a: Action<T>)
    requires Surfacing(s) && Enabled(cfg, s, a)
    ensures Surfacing(Next(cfg, s, a))
  {
    hide Surfacing, ClientNext, StartNext, ScalerNext, WorkerNext, ClientEnabled, StartEnabled, ScalerEnabled,
      WorkerEnabled;
    match a
    case Client(b) => SurfacingClient(cfg, s, b);
    case Start(b) => SurfacingStart(cfg, s, b);
    case Scale(b) => SurfacingScale(cfg, s, b);
    case Work(i, w) => SurfacingWork(cfg, s, i, w);
  }

  lemma {:induction false} SurfacingRun<T>(cfg: Config, s: State<T>, run: seq<Action<T>>)
    requires Surfacing(s)
    ensures Run(cfg, s, run).Some? ==> Surfacing(Run(cfg, s, run).value)
    decreases |run|
  {
    hide Next, Enabled, Surfacing;
    if run != [] && Enabled(cfg, s, run[0]) {
      SurfacingStep(cfg, s, run[0]);
      SurfacingRun(cfg, Next(cfg, s, run[0]), run[1..]);
    }
  }

  /** No failure is swallowed: in every run, a failed handler's error is with its worker, on its way out, or the
      group is canceled with an error recorded. With all workers gone it is recorded; and unless the parent
      canceled, what is recorded is a handler's error. */
  lemma FailureSurfaces<T>(cfg: Config, run: seq<Action<T>>)
    requires cfg.max >= 1 && Run(cfg, Initially<T>(), run).Some?
    ensures var s := Run(cfg, Initially<T>(), run).value;
            s.log.failed ==>
              && ((s.canceled && s.firstErr.Some?) || exists i :: 0 <= i < |s.workers| && Carries(s.workers[i]))
              && (Quiet(s) ==> s.canceled && s.firstErr.Some?
                               && (!s.parentCanceled ==> s.firstErr.value.HandlerError?))
  {
    hide Run, Tally, Conserved, DropsBounded, CountersExact, SubmitsExact;
    SafeInitially<T>(cfg);
    SafeRun(cfg, Initially<T>(), run);
    assert Surfacing(Initially<T>());
    SurfacingRun(cfg, Initially<T>(), run);
  }

  // ----- a closed pool refuses -----

  /** Calls to Submit that began when the pool was closed have been refused, or have not looked yet. */
  ghost predicate Refused<T>(s: State<T>, n: nat) {
    && s.closed && n <= |s.submits|
    && forall j :: n <= j < |s.submits| ==> s.submits[j].Checking? || s.submits[j] == Submitted(Some(PoolClosed))
  }

  lemma RefusedClient<T>(cfg: Config, s: State<T>, a: ClientAction<T>, n: nat)
    requires Refused(s, n) && ClientEnabled(cfg, s, a)
    ensures Refused(ClientNext(cfg, s, a), n)
  {
  }

  lemma RefusedStep<T>(cfg: Config, s: State<T>, a: Action<T>, n: nat)
    requires Refused(s, n) && Enabled(cfg, s, a)
    ensures Refused(Next(cfg, s, a), n)
  {
    hide ClientNext, ScalerNext, WorkerNext, ClientEnabled, ScalerEnabled, WorkerEnabled;
    match a
    case Client(b) => RefusedClient(cfg, s, b, n);
    case Start(_) =>
    case Scale(b) => ScaleLeaves(cfg, s, b);
    case Work(i, w) => WorkOnly(cfg, s, i, w);
  }

  /** Submit after Close: whatever happens, a call that begins on a closed pool can only return ErrPoolClosed. */
  lemma {:induction false} SubmitAfterClose<T>(cfg: Config, s: State<T>, run: seq<Action<T>>, n: nat)
    requires Refused(s, n)
    ensures Run(cfg, s, run).Some? ==> Refused(Run(cfg, s, run).value, n)
    decreases |run|
  {
    hide Next, Enabled, Refused;
    if run != [] && Enabled(cfg, s, run[0]) {
      RefusedStep(cfg, s, run[0], n);
      SubmitAfterClose(cfg, Next(cfg, s, run[0]), run[1..], n);
    }
  }

  /** Nothing of the pool has started, and it is closed. */
  ghost predicate Unstarted<T>(s: State<T>) {
    && s.closed && (s.starter == Starting || s.starter == Returned(Some(PoolClosed)))
    && s.scaler == Absent && s.workers == []
  }

  lemma UnstartedClient<T>(cfg: Config, s: State<T>, a: ClientAction<T>)
    requires Unstarted(s) && ClientEnabled(cfg, s, a)
    ensures Unstarted(ClientNext(cfg, s, a)) && ClientNext(cfg, s, a).starter == s.starter
  {
  }

  lemma UnstartedStep<T>(cfg: Config, s: State<T>, a: Action<T>)
    requires Unstarted(s) && Enabled(cfg, s, a)
    ensures Unstarted(Next(cfg, s, a))
    ensures s.starter.Returned? || a == Start(CheckStart) ==> Next(cfg, s, a).starter.Returned?
  {
    hide ClientNext, ClientEnabled, ScalerNext, WorkerNext;
    match a
    case Client(b) => UnstartedClient(cfg, s, b);
    case Start(_) =>
  }

  /** Start after Close: it starts no goroutine and returns ErrPoolClosed. */
  lemma {:induction false} StartAfterClose<T>(cfg: Config, s: State<T>, run: seq<Action<T>>)
    requires Unstarted(s)
    ensures Run(cfg, s, run).Some? ==>
              var t := Run(cfg, s, run).value;
              && t.scaler == Absent && t.workers == [] && Unstarted(t)
              && (s.starter.Returned? || Start(CheckStart) in run ==> t.starter == Returned(Some(PoolClosed)))
    decreases |run|
  {
    hide Next, Enabled;
    if run != [] && Enabled(cfg, s, run[0]) {
      UnstartedStep(cfg, s, run[0]);
      StartAfterClose(cfg, Next(cfg, s, run[0]), run[1..]);
    }
  }

  // ----- a stopping pool launches nobody -----

  /** Goroutines that looked at `stopping` in time and are about to launch a worker. */
  function Committed<T>(s: State<T>): nat {
    (if s.starter.InitialGo? then 1 else 0) + if s.scaler.Launching? then 1 else 0
  }

  ghost predicate NoMore<T>(s: State<T>, t: State<T>) {
    t.stopping && |t.workers| + Committed(t) <= |s.workers| + Committed(s)
  }

  lemma StoppingClient<T>(cfg: Config, s: State<T>, a: ClientAction<T>)
    requires s.stopping && ClientEnabled(cfg, s, a)
    ensures NoMore(s, ClientNext(cfg, s, a))
  {
  }

  lemma StoppingStart<T>(cfg: Config, s: State<T>, a: StartAction)
    requires s.stopping && StartEnabled(s, a)
    ensures NoMore(s, StartNext(cfg, s, a))
  {
  }

  lemma StoppingScale<T>(cfg: Config, s: State<T>, a: ScalerAction)
    requires s.stopping && ScalerEnabled(s, a)
    ensures NoMore(s, ScalerNext(cfg, s, a))
  {
    hide ScalerNext, Decide;
    ScaleLeaves(cfg, s, a);
    ScaleEffects(cfg, s, a);
    ScaleRecords(cfg, s, a);
  }

  lemma StoppingStep<T>(cfg: Config, s: State<T>, a: Action<T>)
    requires s.stopping && Enabled(cfg, s, a)
    ensures NoMore(s, Next(cfg, s, a))
  {
    hide ClientNext, StartNext, ScalerNext, WorkerNext, ClientEnabled, StartEnabled, ScalerEnabled;
    match a
    case Client(b) => StoppingClient(cfg, s, b);
    case Start(b) => StoppingStart(cfg, s, b);
    case Scale(b) => StoppingScale(cfg, s, b);
    case Work(i, w) =>
      WorkLeaves(cfg, s, i, w);
      WorkOnly(cfg, s, i, w);
  }

  /** Once a worker has seen the closed channel, at most the launches already committed still happen. */
  lemma {:induction false} StoppingLaunchesNobody<T>(cfg: Config, s: State<T>, run: seq<Action<T>>)
    requires s.stopping
    ensures Run(cfg, s, run).Some? ==> |Run(cfg, s, run).value.workers| <= |s.workers| + Committed(s)
    decreases |run|
  {
    hide Next, Enabled;
    if run != [] && Enabled(cfg, s, run[0]) {
      StoppingStep(cfg, s, run[0]);
      StoppingLaunchesNobody(cfg, Next(cfg, s, run[0]), run[1..]);
    }
  }

  // ----- what Submit can return, and how full the channels get -----

  ghost predicate Orderly<T>(cfg: Config, s: State<T>) {
    && |s.queue| <= cfg.max && s.tokens <= cfg.max
    && forall j :: 0 <= j < |s.submits| && s.submits[j].Submitted? && s.submits[j].err.Some? ==>
         s.submits[j].err.value == Canceled || (s.submits[j].err.value == PoolClosed && s.closed)
  }

  lemma OrderlyClient<T>(cfg: Config, s: State<T>, a: ClientAction<T>)
    requires Orderly(cfg, s) && ClientEnabled(cfg, s, a)
    ensures Orderly(cfg, ClientNext(cfg, s, a))
  {
  }

  lemma OrderlyStart<T>(cfg: Config, s: State<T>, a: StartAction)
    requires Orderly(cfg, s) && StartEnabled(s, a)
    ensures Orderly(cfg, StartNext(cfg, s, a))
  {
  }

  lemma OrderlyStep<T>(cfg: Config, s: State<T>, a: Action<T>)
    requires Orderly(cfg, s) && Enabled(cfg, s, a)
    ensures Orderly(cfg, Next(cfg, s, a))
  {
    hide ClientNext, StartNext, ScalerNext, WorkerNext, ClientEnabled, StartEnabled, ScalerEnabled,
      WorkerEnabled;
    match a
    case Client(b) => OrderlyClient(cfg, s, b);
    case Start(b) => OrderlyStart(cfg, s, b);
    case Scale(b) =>
      ScaleLeaves(cfg, s, b);
      ScaleEffects(cfg, s, b);
    case Work(i, w) =>
      WorkLeaves(cfg, s, i, w);
      WorkOnly(cfg, s, i, w);
  }

  lemma {:induction false} OrderlyRun<T>(cfg: Config, s: State<T>, run: seq<Action<T>>)
    requires Orderly(cfg, s)
    ensures Run(cfg, s, run).Some? ==> Orderly(cfg, Run(cfg, s, run).value)
    decreases |run|
  {
    hide Next, Enabled, Orderly;
    if run != [] && Enabled(cfg, s, run[0]) {
      OrderlyStep(cfg, s, run[0]);
      OrderlyRun(cfg, Next(cfg, s, run[0]), run[1..]);
    }
  }

  /** In every run, neither channel holds more than max, and Submit's error is the caller's cancellation, or
      ErrPoolClosed on a pool that is closed. */
  lemma OrderlyAlways<T>(cfg: Config, run: seq<Action<T>>)
    requires cfg.max >= 0 && Run(cfg, Initially<T>(), run).Some?
    ensures Orderly(cfg, Run(cfg, Initially<T>(), run).value)
  {
    hide Run;
    OrderlyRun(cfg, Initially<T>(), run);
  }
}
