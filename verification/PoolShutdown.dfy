/** Closing, stopping and returning: what can be dropped, and when Start comes back with which error. */
module PoolShutdown {
  import opened Wrappers
  import opened Pool
  import opened PoolSafety

  // ----- drops -----

  /** `stopping` is set only once the channel is closed and empty; items are dropped only after that, and
      those dropped or still undecided are fewer than max. */
  ghost predicate DropsBounded<T>(cfg: Config, s: State<T>) {
    && (s.channelClosed ==> s.closed)
    && (s.stopping ==> s.channelClosed && s.queue == [])
    && (forall i :: 0 <= i < |s.workers| && s.workers[i].ClosedSeen? ==> s.channelClosed && s.queue == [])
    && (!s.stopping ==> s.log.dropped == {})
    && (s.stopping ==> |s.log.dropped| + Tally(s.workers, Undecided) <= cfg.max - 1)
  }

  lemma DropsClient<T>(cfg: Config, s: State<T>, a: ClientAction<T>)
    requires DropsBounded(cfg, s) && ClientEnabled(cfg, s, a)
    ensures DropsBounded(cfg, ClientNext(cfg, s, a))
  {
    hide Tally;
  }

  lemma DropsStart<T>(cfg: Config, s: State<T>, a: StartAction)
    requires DropsBounded(cfg, s) && StartEnabled(s, a)
    ensures DropsBounded(cfg, StartNext(cfg, s, a))
  {
    hide Tally;
    TallyAppend(s.workers, Load, Undecided);
  }

  lemma DropsScale<T>(cfg: Config, s: State<T>, a: ScalerAction)
    requires DropsBounded(cfg, s) && ScalerEnabled(s, a)
    ensures DropsBounded(cfg, ScalerNext(cfg, s, a))
  {
    hide Tally, ScalerNext, ScalerEnabled;
    ScaleLeaves(cfg, s, a);
    ScaleEffects(cfg, s, a);
    TallyAppend(s.workers, Load, Undecided);
  }

  lemma OwnNotDropped<T>(s: State<T>, i: nat)
    requires Conserved(s) && i < |s.workers|
    ensures ItemOf(s.workers[i]).Some? ==> ItemOf(s.workers[i]).value !in s.log.dropped
  {
  }

  lemma DropsWork<T>(cfg: Config, s: State<T>, i: nat, w: WorkerAction)
    requires DropsBounded(cfg, s) && CountersExact(cfg, s) && Conserved(s) && WorkerEnabled(cfg, s, i, w)
    ensures DropsBounded(cfg, WorkerNext(cfg, s, i, w))
  {
    hide Tally, InOrder, EnteredOnce, Owned;
    OwnNotDropped(s, i);
    TallyUpdate(s.workers, i, WorkerPc(cfg, s, i, w), Undecided);
    if w.StoreStopping? {
      TallyUpdate(s.workers, i, WorkerPc(cfg, s, i, w), SawClosed);
      TallyTwo(s.workers, Undecided, SawClosed);
    }
  }

  lemma DropsStep<T>(cfg: Config, s: State<T>, a: Action<T>)
    requires DropsBounded(cfg, s) && CountersExact(cfg, s) && Conserved(s) && Enabled(cfg, s, a)
    ensures DropsBounded(cfg, Next(cfg, s, a))
  {
    hide ClientNext, StartNext, ScalerNext, WorkerNext, StartEnabled, ScalerEnabled, WorkerEnabled, ClientEnabled,
      DropsBounded, CountersExact, Conserved;
    match a
    case Client(b) => DropsClient(cfg, s, b);
    case Start(b) => DropsStart(cfg, s, b);
    case Scale(b) => DropsScale(cfg, s, b);
    case Work(i, w) => DropsWork(cfg, s, i, w);
  }

  // ----- errors -----

  /** An error a goroutine may hold: a cancellation that happened, or the failure of a finished handler. */
  predicate Genuine<T>(s: State<T>, e: Error) {
    match e
    case Canceled => s.canceled
    case HandlerError(k) => k in s.log.finished && s.log.failed
    case PoolClosed => false
  }

  /** A worker's errors are genuine, and it leaves without one only for a token or because the pool is stopping. */
  predicate ErrorOk<T>(s: State<T>, pc: Pc) {
    && (pc.Return? && pc.err.Some? ==> Genuine(s, pc.err.value))
    && (pc.Exit? && pc.err.Some? ==> Genuine(s, pc.err.value))
    && (pc.Leave? && pc.failed ==> s.log.failed)
    && (pc.Return? && pc.err.None? && !pc.token ==> s.stopping)
  }

  ghost predicate WorkerErrors<T>(s: State<T>) {
    forall i :: 0 <= i < |s.workers| ==> ErrorOk(s, s.workers[i])
  }

  /** The group is canceled by the parent or by a recorded handler error, and by nothing else. */
  ghost predicate CancelTraced<T>(s: State<T>) {
    && (s.parentCanceled ==> s.canceled)
    && (s.firstErr.Some? ==> s.canceled)
    && (s.canceled ==> s.parentCanceled || (s.firstErr.Some? && s.firstErr.value.HandlerError?))
    && (s.firstErr.Some? ==> Genuine(s, s.firstErr.value))
    && (s.firstErr == Some(Canceled) ==> s.parentCanceled)
    && (s.scaler.Stopped? ==> s.scaler.err == Canceled && s.canceled)
    && (s.scaler == Recorded ==> s.firstErr.Some?)
  }

  ghost predicate Quiet<T>(s: State<T>) {
    forall i :: 0 <= i < |s.workers| ==> s.workers[i] == Gone
  }

  /** How far Start is says which goroutines there can be. */
  ghost predicate StartTraced<T>(s: State<T>) {
    && (s.starter == Starting || s.starter == StartingScaler || s.starter == Returned(Some(PoolClosed)) ==>
          s.scaler == Absent && s.workers == [])
    && (s.starter.Returned? && s.starter != Returned(Some(PoolClosed)) ==>
          s.scaler == Recorded && Quiet(s) && s.starter.err == s.firstErr)
    && (s.starter.Initial? || s.starter.InitialGo? || s.starter == Joining ==> s.scaler != Absent)
  }

  ghost predicate ErrorsTraced<T>(s: State<T>) {
    WorkerErrors(s) && CancelTraced(s) && StartTraced(s)
  }

  lemma ErrorsClient<T>(cfg: Config, s: State<T>, a: ClientAction<T>)
    requires ErrorsTraced(s) && ClientEnabled(cfg, s, a)
    ensures ErrorsTraced(ClientNext(cfg, s, a))
  {
  }

  lemma ErrorsStart<T>(cfg: Config, s: State<T>, a: StartAction)
    requires ErrorsTraced(s) && StartEnabled(s, a)
    ensures ErrorsTraced(StartNext(cfg, s, a))
  {
  }

  lemma ErrorsScale<T>(cfg: Config, s: State<T>, a: ScalerAction)
    requires ErrorsTraced(s) && ScalerEnabled(s, a)
    ensures ErrorsTraced(ScalerNext(cfg, s, a))
  {
    hide Tally, ScalerNext, Decide;
    ScaleRecords(cfg, s, a);
    ScaleLeaves(cfg, s, a);
    ScaleEffects(cfg, s, a);
  }

  lemma StaysOk<T>(s: State<T>, t: State<T>, pc: Pc)
    requires ErrorOk(s, pc) && (s.canceled ==> t.canceled) && (s.log.failed ==> t.log.failed)
    requires s.log.finished <= t.log.finished && (s.stopping ==> t.stopping)
    ensures ErrorOk(t, pc)
  {
  }

  lemma WorkerErrorsMove<T>(s: State<T>, t: State<T>, i: nat, pc: Pc)
    requires WorkerErrors(s) && i < |s.workers| && t.workers == s.workers[i := pc] && ErrorOk(t, pc)
    requires (s.canceled ==> t.canceled) && (s.log.failed ==> t.log.failed) && s.log.finished <= t.log.finished
    requires s.stopping ==> t.stopping
    ensures WorkerErrors(t)
  {
    hide ErrorOk;
    forall j | 0 <= j < |s.workers| && j != i
      ensures ErrorOk(t, t.workers[j])
    {
      StaysOk(s, t, s.workers[j]);
    }
  }

  lemma NextErrorOk<T>(cfg: Config, s: State<T>, i: nat, w: WorkerAction)
    requires WorkerEnabled(cfg, s, i, w) && ErrorOk(s, s.workers[i])
    ensures ErrorOk(WorkerNext(cfg, s, i, w), WorkerPc(cfg, s, i, w))
  {
  }

  lemma WorkerErrorsWork<T>(cfg: Config, s: State<T>, i: nat, w: WorkerAction)
    requires WorkerErrors(s) && WorkerEnabled(cfg, s, i, w)
    ensures WorkerErrors(WorkerNext(cfg, s, i, w))
  {
    hide WorkerErrors, ErrorOk, WorkerPc, WorkerNext;
    WorkerErrorAt(s, i);
    WorkLeaves(cfg, s, i, w);
    WorkOnly(cfg, s, i, w);
    NextErrorOk(cfg, s, i, w);
    WorkerErrorsMove(s, WorkerNext(cfg, s, i, w), i, WorkerPc(cfg, s, i, w));
  }

  lemma WorkerErrorAt<T>(s: State<T>, i: nat)
    requires WorkerErrors(s)
    ensures i < |s.workers| ==> ErrorOk(s, s.workers[i])
  {
  }

  lemma CancelTracedWork<T>(cfg: Config, s: State<T>, i: nat, w: WorkerAction)
    requires CancelTraced(s) && WorkerEnabled(cfg, s, i, w)
    requires s.workers[i].Exit? && s.workers[i].err.Some? ==> Genuine(s, s.workers[i].err.value)
    ensures CancelTraced(WorkerNext(cfg, s, i, w))
  {
    hide WorkerPc;
  }

  lemma StartTracedWork<T>(cfg: Config, s: State<T>, i: nat, w: WorkerAction)
    requires StartTraced(s) && WorkerEnabled(cfg, s, i, w)
    ensures StartTraced(WorkerNext(cfg, s, i, w))
  {
    hide WorkerPc;
  }

  lemma ErrorsWork<T>(cfg: Config, s: State<T>, i: nat, w: WorkerAction)
    requires ErrorsTraced(s) && WorkerEnabled(cfg, s, i, w)
    ensures ErrorsTraced(WorkerNext(cfg, s, i, w))
  {
    hide WorkerNext, CancelTraced, StartTraced, Genuine;
    WorkerErrorsWork(cfg, s, i, w);
    CancelTracedWork(cfg, s, i, w);
    StartTracedWork(cfg, s, i, w);
  }

  lemma ErrorsStep<T>(cfg: Config, s: State<T>, a: Action<T>)
    requires ErrorsTraced(s) && Enabled(cfg, s, a)
    ensures ErrorsTraced(Next(cfg, s, a))
  {
    hide ClientNext, StartNext, ScalerNext, WorkerNext, StartEnabled, ScalerEnabled, WorkerEnabled, ClientEnabled,
      ErrorsTraced;
    match a
    case Client(b) => ErrorsClient(cfg, s, b);
    case Start(b) => ErrorsStart(cfg, s, b);
    case Scale(b) => ErrorsScale(cfg, s, b);
    case Work(i, w) => ErrorsWork(cfg, s, i, w);
  }

  // ----- all runs -----

  ghost predicate Safe<T>(cfg: Config, s: State<T>) {
    CountersExact(cfg, s) && Conserved(s) && DropsBounded(cfg, s) && ErrorsTraced(s) && SubmitsExact(s)
  }

  lemma SafeInitially<T>(cfg: Config)
    requires cfg.max >= 1
    ensures Safe<T>(cfg, Initially())
  {
  }

  lemma SafeStep<T>(cfg: Config, s: State<T>, a: Action<T>)
    requires Safe(cfg, s) && Enabled(cfg, s, a)
    ensures Safe(cfg, Next(cfg, s, a))
  {
    hide Next, Enabled, CountersExact, Conserved, DropsBounded, ErrorsTraced, SubmitsExact;
    SubmitsStep(cfg, s, a);
    CountersStep(cfg, s, a);
    ConservedStep(cfg, s, a);
    DropsStep(cfg, s, a);
    ErrorsStep(cfg, s, a);
  }

  lemma {:induction false} SafeRun<T>(cfg: Config, s: State<T>, run: seq<Action<T>>)
    requires Safe(cfg, s)
    ensures Run(cfg, s, run).Some? ==> Safe(cfg, Run(cfg, s, run).value)
    decreases |run|
  {
    hide Next, Enabled, Safe;
    if run != [] && Enabled(cfg, s, run[0]) {
      SafeStep(cfg, s, run[0]);
      SafeRun(cfg, Next(cfg, s, run[0]), run[1..]);
    }
  }

  /** Counters: in every reachable state, 0 <= busy <= active <= max, and both are exact. */
  lemma CountersAlways<T>(cfg: Config, run: seq<Action<T>>)
    requires cfg.max >= 1 && Run(cfg, Initially<T>(), run).Some?
    ensures var s := Run(cfg, Initially<T>(), run).value;
            && s.active == Tally(s.workers, Counted) && s.busy == Tally(s.workers, InBracket)
            && 0 <= s.busy <= s.active <= cfg.max
  {
    hide Run, Tally, Conserved, DropsBounded, ErrorsTraced;
    SafeInitially<T>(cfg);
    SafeRun(cfg, Initially<T>(), run);
    BracketIsCounted(Run(cfg, Initially<T>(), run).value.workers);
  }

  /** Delivery: in every reachable state, one item was accepted for each Submit that returned nil; what was
      received followed by the queue is what was accepted, in order; each received item is owned by exactly one
      worker, finished or dropped; no item entered the handler twice; drops need a closed, empty, stopping pool
      and number at most max - 1. */
  lemma DeliveryAlways<T>(cfg: Config, run: seq<Action<T>>)
    requires cfg.max >= 1 && Run(cfg, Initially<T>(), run).Some?
    ensures var s := Run(cfg, Initially<T>(), run).value;
            && Conserved(s)
            && |s.log.accepted| == Accepting(s.submits)
            && |s.log.dropped| <= cfg.max - 1
            && (s.log.dropped != {} ==> s.stopping && s.closed && s.queue == [])
  {
    hide Run, Conserved, CountersExact, ErrorsTraced;
    SafeInitially<T>(cfg);
    SafeRun(cfg, Initially<T>(), run);
  }

  lemma {:induction false} Below(n: nat, a: set<nat>, b: set<nat>)
    requires a !! b && forall k: nat :: k < n <==> k in a || k in b
    ensures |a| + |b| == n
  {
    if n == 0 {
      assert a == {} && b == {};
    } else {
      var m := n - 1;
      Below(m, a - {m}, b - {m});
      if m in a {
        assert |a - {m}| == |a| - 1 && b - {m} == b;
      } else {
        assert |b - {m}| == |b| - 1 && a - {m} == a;
      }
    }
  }

  lemma NothingHeld<T>(s: State<T>)
    requires InOrder(s) && Partitioned(s) && Owned(s) && s.queue == [] && Quiet(s)
    ensures forall k: nat :: k < |s.log.accepted| <==> k in s.log.finished || k in s.log.dropped
    ensures |s.log.finished| + |s.log.dropped| == |s.log.accepted|
  {
    assert forall k: nat :: k !in s.log.owner;
    Below(|s.log.accepted|, s.log.finished, s.log.dropped);
  }

  /** Close drains the pool: once a worker has seen the closed channel and all workers are gone, every accepted
      item has been handled or dropped, and all but at most max - 1 have been handled. */
  lemma CloseDrains<T>(cfg: Config, run: seq<Action<T>>)
    requires cfg.max >= 1 && Run(cfg, Initially<T>(), run).Some?
    ensures var s := Run(cfg, Initially<T>(), run).value;
            s.stopping && Quiet(s) ==>
              && (forall k: nat :: k < |s.log.accepted| <==> k in s.log.finished || k in s.log.dropped)
              && s.log.finished !! s.log.dropped
              && |s.log.finished| >= |s.log.accepted| - (cfg.max - 1)
  {
    hide Run, Initially, CountersExact, ErrorsTraced, EnteredOnce, Quiet;
    SafeInitially<T>(cfg);
    SafeRun(cfg, Initially<T>(), run);
    var s := Run(cfg, Initially<T>(), run).value;
    if s.stopping && Quiet(s) {
      NothingHeld(s);
    }
  }

  lemma ErrorKeptOther<T>(cfg: Config, s: State<T>, a: Action<T>)
    requires Enabled(cfg, s, a) && !a.Work? && s.firstErr.Some?
    ensures Next(cfg, s, a).firstErr == s.firstErr
  {
    hide ClientNext, ClientEnabled, ScalerNext, ScalerEnabled;
    match a
    case Client(b) => ClientLeaves(cfg, s, b);
    case Start(_) =>
    case Scale(b) => ScaleEffects(cfg, s, b);
  }

  /** The first error recorded by the group is never replaced. */
  lemma {:induction false} FirstErrorStays<T>(cfg: Config, s: State<T>, run: seq<Action<T>>)
    requires s.firstErr.Some?
    ensures Run(cfg, s, run).Some? ==> Run(cfg, s, run).value.firstErr == s.firstErr
    decreases |run|
  {
    hide ClientNext, StartNext, ScalerNext, WorkerNext, ClientEnabled, StartEnabled, ScalerEnabled, WorkerEnabled;
    if run != [] && Enabled(cfg, s, run[0]) {
      if run[0].Work? {
        WorkOnly(cfg, s, run[0].i, run[0].w);
      } else {
        ErrorKeptOther(cfg, s, run[0]);
      }
      FirstErrorStays(cfg, Next(cfg, s, run[0]), run[1..]);
    }
  }

  /** Start's return: after it, no goroutine of the group is left and both counters are 0; its error is never
      nil, is Canceled only if the parent context was, and otherwise a handler's; a pool that started returns the
      first error recorded, which FirstErrorStays says is never replaced. */
  lemma ReturnAlways<T>(cfg: Config, run: seq<Action<T>>)
    requires cfg.max >= 1 && Run(cfg, Initially<T>(), run).Some?
    ensures var s := Run(cfg, Initially<T>(), run).value;
            s.starter.Returned? ==>
              && Quiet(s) && (s.scaler == Absent || s.scaler == Recorded)
              && (s.scaler != Absent ==> s.starter.err == s.firstErr)
              && s.active == 0 && s.busy == 0 && s.starter.err.Some?
              && (s.starter.err == Some(Canceled) ==> s.parentCanceled)
              && (s.starter.err.value.HandlerError? ==> s.log.failed && s.starter.err.value.item in s.log.finished)
              && (s.starter.err == Some(PoolClosed) ==> s.workers == [])
  {
    hide Run, Tally, Conserved, DropsBounded;
    SafeInitially<T>(cfg);
    SafeRun(cfg, Initially<T>(), run);
    var s := Run(cfg, Initially<T>(), run).value;
    TallyNone(s.workers, Counted);
    TallyNone(s.workers, InBracket);
  }

  /** Close alone never makes a started pool return. */
  lemma CloseDoesNotReturn<T>(cfg: Config, run: seq<Action<T>>)
    requires cfg.max >= 1 && Run(cfg, Initially<T>(), run).Some?
    ensures var s := Run(cfg, Initially<T>(), run).value;
            !s.parentCanceled && !s.log.failed && s.scaler != Absent ==> !s.starter.Returned? && !s.canceled
  {
    hide Run, Tally, Conserved, DropsBounded, CountersExact;
    SafeInitially<T>(cfg);
    SafeRun(cfg, Initially<T>(), run);
  }
}
