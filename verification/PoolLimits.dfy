/** Exactly which configurations keep their floor, and which can lose all their workers. */
module PoolLimits {
  import opened Wrappers
  import opened Pool
  import opened PoolSafety
  import opened PoolShutdown
  import opened PoolFloor
  import opened PoolReach

  // ----- growing -----

  /** Start launches its first worker. */
  lemma FirstLaunch<T(!new)>(cfg: Config) returns (t: State<T>)
    requires cfg.Valid() && cfg.min >= 1
    ensures Reachable(cfg, t) && Calm(t) && t.workers == [Load] && t.active == t.busy == 0
    ensures t.starter == Initial(cfg.min - 1) && t.log.dropped == {}
  {
    hide Reachable, ScalerNext, ScalerEnabled, WorkerNext, WorkerEnabled, ClientNext, ClientEnabled;
    Begins<T>(cfg);
    t := Do(cfg, Initially<T>(), Start(CheckStart));
    t := Do(cfg, t, Start(GoScaler));
    t := Do(cfg, t, Start(CheckStopping));
    t := Do(cfg, t, Start(GoWorker));
  }

  /** The first worker receives an item. */
  lemma FirstWorker<T(!new)>(cfg: Config, x: T) returns (t: State<T>)
    requires cfg.Valid() && cfg.min >= 1
    ensures Reachable(cfg, t) && Calm(t) && Line(t, 1, 0, Idle, Working) && t.active == t.busy == 1
    ensures t.starter == Initial(cfg.min - 1) && t.log.dropped == {}
  {
    hide Reachable, Initially;
    t := FirstLaunch(cfg);
    t := Join(cfg, t, 0);
    t := Hand(cfg, t, x, 0);
    t := Enters(cfg, t, 0);
  }

  lemma Begins<T(!new)>(cfg: Config)
    ensures Reachable<T>(cfg, Initially())
  {
    hide Initially;
    assert Run(cfg, Initially<T>(), []) == Some(Initially<T>());
  }

  lemma GrowOne<T(!new)>(cfg: Config, x: T, s: State<T>, k: nat) returns (t: State<T>)
    requires cfg.Valid() && Reachable(cfg, s) && Calm(s) && Line(s, k, 0, Idle, Working)
    requires 1 <= k < cfg.max && s.active == s.busy == k
    ensures Reachable(cfg, t) && Calm(t) && Line(t, k + 1, 0, Idle, Working) && t.active == t.busy == k + 1
    ensures t.starter == s.starter && t.log.dropped == s.log.dropped
  {
    hide Reachable, Initially;
    t := ScaleUp(cfg, s);
    t := Join(cfg, t, k);
    t := Hand(cfg, t, x, k);
    t := Enters(cfg, t, k);
  }

  /** Scale-ups can bring the pool to any size up to max while Start is still launching. */
  lemma {:induction false} Grow<T(!new)>(cfg: Config, x: T, k: nat) returns (t: State<T>)
    requires cfg.Valid() && 1 <= cfg.min && 1 <= k <= cfg.max
    ensures Reachable(cfg, t) && Calm(t) && Line(t, k, 0, Idle, Working) && t.active == t.busy == k
    ensures t.starter == Initial(cfg.min - 1) && t.log.dropped == {}
    decreases k
  {
    hide Reachable, Initially, Line, Calm;
    if k == 1 {
      t := FirstWorker(cfg, x);
    } else {
      var s := Grow(cfg, x, k - 1);
      t := GrowOne(cfg, x, s, k - 1);
    }
  }

  /** All handlers succeed. */
  lemma {:induction false} Relax<T(!new)>(cfg: Config, s: State<T>, k: nat, d: nat) returns (t: State<T>)
    requires Reachable(cfg, s) && Calm(s) && Line(s, k, d, Idle, Working) && s.active == k && s.busy == k - d
    ensures Reachable(cfg, t) && Calm(t) && Line(t, k, k, Idle, Working) && t.active == k && t.busy == 0
    ensures t.starter == s.starter && t.log.dropped == s.log.dropped
    decreases k - d
  {
    hide Reachable, Initially;
    if d == k {
      t := s;
    } else {
      t := Finishes(cfg, s, d);
      t := Relax(cfg, t, k, d + 1);
    }
  }

  // ----- dying -----

  lemma HireOne<T(!new)>(cfg: Config, s: State<T>, k: nat) returns (t: State<T>)
    requires Reachable(cfg, s) && Calm(s) && Line(s, k, k, Idle, Working) && s.active == k < cfg.max
    requires s.starter.Initial? && s.starter.left > 0
    ensures Reachable(cfg, t) && Calm(t) && Line(t, k + 1, k + 1, Idle, Working) && t.active == k + 1
    ensures t.busy == s.busy && t.starter == Initial(s.starter.left - 1)
  {
    hide Reachable, Initially, ScalerNext, ScalerEnabled, WorkerNext, WorkerEnabled, ClientNext, ClientEnabled;
    t := Do(cfg, s, Start(CheckStopping));
    t := Do(cfg, t, Start(GoWorker));
    t := Join(cfg, t, k);
  }

  /** Start launches the rest of its workers. */
  lemma {:induction false} HireRest<T(!new)>(cfg: Config, s: State<T>, k: nat) returns (t: State<T>)
    requires Reachable(cfg, s) && Calm(s) && Line(s, k, k, Idle, Working) && s.active == k && s.busy == 0
    requires s.starter.Initial? && s.starter.left >= 0 && k + s.starter.left <= cfg.max
    ensures var n := k + s.starter.left;
            && Reachable(cfg, t) && Calm(t) && Line(t, n, n, Idle, Working) && t.active == n && t.busy == 0
    ensures t.starter == Joining
    decreases s.starter.left
  {
    hide Reachable, Initially, ScalerNext, ScalerEnabled, WorkerNext, WorkerEnabled, ClientNext, ClientEnabled;
    if s.starter.left == 0 {
      t := Do(cfg, s, Start(CheckStopping));
    } else {
      t := HireOne(cfg, s, k);
      t := HireRest(cfg, t, k + 1);
    }
  }

  /** Every idle worker takes the token of one more scale-down before any of them is uncounted. */
  lemma {:induction false} Drain<T(!new)>(cfg: Config, s: State<T>, d: nat) returns (t: State<T>)
    requires cfg.Valid() && 1 <= cfg.min && 0.0 < cfg.minLoad && Reachable(cfg, s) && Calm(s)
    requires Line(s, cfg.min + 1, d, Told, Idle) && s.active == cfg.min + 1 && s.busy == 0 && s.starter == Joining
    ensures Reachable(cfg, t) && Calm(t) && Line(t, cfg.min + 1, cfg.min + 1, Told, Idle)
    ensures t.active == cfg.min + 1 && t.starter == Joining
    decreases cfg.min + 1 - d
  {
    hide Reachable, Initially;
    if d == cfg.min + 1 {
      t := s;
    } else {
      t := ScaleDown(cfg, s, d);
      t := Drain(cfg, t, d + 1);
    }
  }

  /** Then they are all uncounted. */
  lemma {:induction false} Disband<T(!new)>(cfg: Config, s: State<T>, k: nat, d: nat) returns (t: State<T>)
    requires Reachable(cfg, s) && Calm(s) && Line(s, k, d, Left, Told) && s.active == k - d && s.starter == Joining
    ensures Reachable(cfg, t) && Calm(t) && Line(t, k, k, Left, Told) && t.active == 0 && t.starter == Joining
    decreases k - d
  {
    hide Reachable, Initially, ScalerNext, ScalerEnabled, StartNext, StartEnabled, ClientNext, ClientEnabled;
    if d == k {
      t := s;
    } else {
      t := Do(cfg, s, Work(d, DecActive));
      assert t.workers == s.workers[d := Exit(None)];
      t := Disband(cfg, t, k, d + 1);
    }
  }

  /** No worker is left, none is on its way, and the autoscaler will skip every tick. */
  ghost predicate Dead<T>(cfg: Config, s: State<T>) {
    && s.active == 0 && StarterLeft(cfg, s) == 0 && !s.starter.InitialGo?
    && (forall i :: 0 <= i < |s.workers| ==> s.workers[i].Exit? || s.workers[i].Gone?)
    && !s.scaler.Spawning? && !s.scaler.Launching?
    && (s.scaler.LoadedActive? || s.scaler.LoadedBusy? || s.scaler.ReadTime? ==> s.scaler.active == 0)
  }

  lemma Dies<T(!new)>(cfg: Config, x: T) returns (t: State<T>)
    requires cfg.Valid() && 1 <= cfg.min < cfg.max && 0.0 < cfg.minLoad
    ensures Reachable(cfg, t) && Undisturbed(t) && Unhurried(t.log.downs) && Dead(cfg, t)
  {
    hide Reachable, Initially;
    t := Grow(cfg, x, 2);
    t := Relax(cfg, t, 2, 0);
    t := HireRest(cfg, t, 2);
    t := Drain(cfg, t, 0);
    t := Disband(cfg, t, cfg.min + 1, 0);
  }

  /** Nothing more was received or handled. */
  ghost predicate Handed<T>(s: State<T>, t: State<T>) {
    t.log.received == s.log.received && t.log.entered == s.log.entered
  }

  lemma DeadClient<T>(cfg: Config, s: State<T>, a: ClientAction<T>)
    requires Dead(cfg, s) && ClientEnabled(cfg, s, a)
    ensures Dead(cfg, ClientNext(cfg, s, a)) && Handed(s, ClientNext(cfg, s, a))
  {
    hide Tally;
  }

  lemma DeadStart<T>(cfg: Config, s: State<T>, a: StartAction)
    requires Dead(cfg, s) && StartEnabled(s, a)
    ensures Dead(cfg, StartNext(cfg, s, a)) && Handed(s, StartNext(cfg, s, a))
  {
    hide Tally;
  }

  lemma DeadScale<T>(cfg: Config, s: State<T>, a: ScalerAction)
    requires Dead(cfg, s) && ScalerEnabled(s, a)
    ensures Dead(cfg, ScalerNext(cfg, s, a)) && Handed(s, ScalerNext(cfg, s, a))
  {
    hide Tally, ScalerNext, Decide;
    ScaleRecords(cfg, s, a);
    ScaleLeaves(cfg, s, a);
    ScaleEffects(cfg, s, a);
  }

  lemma DeadWork<T>(cfg: Config, s: State<T>, i: nat, a: WorkerAction)
    requires Dead(cfg, s) && WorkerEnabled(cfg, s, i, a)
    ensures Dead(cfg, WorkerNext(cfg, s, i, a)) && Handed(s, WorkerNext(cfg, s, i, a))
  {
    hide Tally;
  }

  lemma DeadStep<T>(cfg: Config, s: State<T>, a: Action<T>)
    requires Dead(cfg, s) && Enabled(cfg, s, a)
    ensures Dead(cfg, Next(cfg, s, a)) && Handed(s, Next(cfg, s, a))
  {
    hide Dead, Handed, ClientNext, StartNext, ScalerNext, WorkerNext, ClientEnabled, StartEnabled, ScalerEnabled,
      WorkerEnabled;
    match a
    case Client(b) => DeadClient(cfg, s, b);
    case Start(b) => DeadStart(cfg, s, b);
    case Scale(b) => DeadScale(cfg, s, b);
    case Work(i, w) => DeadWork(cfg, s, i, w);
  }

  /** A dead pool stays dead: whatever happens, it never receives or handles another item. */
  lemma {:induction false} DeadStays<T>(cfg: Config, s: State<T>, run: seq<Action<T>>)
    requires Dead(cfg, s)
    ensures Run(cfg, s, run).Some? ==>
              Dead(cfg, Run(cfg, s, run).value) && Handed(s, Run(cfg, s, run).value)
    decreases |run|
  {
    hide Next, Enabled, Dead;
    if run != [] && Enabled(cfg, s, run[0]) {
      DeadStep(cfg, s, run[0]);
      DeadStays(cfg, Next(cfg, s, run[0]), run[1..]);
    }
  }

  // ----- which configurations keep the floor -----

  /** Options under which no scale-down is ever decided. */
  predicate NeverShrinks(cfg: Config) {
    cfg.min < 0 || cfg.min == cfg.max || cfg.minLoad == 0.0
  }

  /** What the autoscaler has loaded is in range, and nothing was ever scaled down. */
  ghost predicate Steady<T>(cfg: Config, s: State<T>) {
    && s.log.downs == [] && s.log.sent == [] && !s.scaler.Deflating?
    && (cfg.min < 0 ==> Dead(cfg, s))
    && (s.scaler.LoadedActive? ==> 0 <= s.scaler.active <= cfg.max)
    && (s.scaler.LoadedBusy? || s.scaler.ReadTime? ==> 0 < s.scaler.active <= cfg.max && 0 <= s.scaler.busy)
  }

  lemma NoDecision(cfg: Config, active: int, busy: int, now: int, last: int)
    requires NeverShrinks(cfg) && 0 < active <= cfg.max && 0 <= busy && cfg.min >= 0
    ensures !Decide(cfg, active, busy, now, last).Deflating?
  {
    assert busy as real / active as real >= 0.0;
  }

  lemma SteadyDecide<T>(cfg: Config, s: State<T>)
    requires NeverShrinks(cfg) && Steady(cfg, s) && ScalerEnabled(s, LoadLast)
    ensures Steady(cfg, ScalerNext(cfg, s, LoadLast))
  {
    hide Decide, Removal, Tally, NeverShrinks;
    if cfg.min < 0 {
      DeadScale(cfg, s, LoadLast);
    } else {
      NoDecision(cfg, s.scaler.active, s.scaler.busy, s.scaler.now, s.last);
    }
  }

  lemma SteadyScale<T>(cfg: Config, s: State<T>, a: ScalerAction)
    requires Steady(cfg, s) && CountersExact(cfg, s) && ScalerEnabled(s, a) && !a.LoadLast?
    ensures Steady(cfg, ScalerNext(cfg, s, a))
  {
    hide Tally, Dead;
    if cfg.min < 0 {
      DeadScale(cfg, s, a);
    }
  }

  lemma SteadyOther<T>(cfg: Config, s: State<T>, t: State<T>)
    requires Steady(cfg, s) && ScalerUntouched(s, t)
    requires Dead(cfg, s) ==> Dead(cfg, t)
    ensures Steady(cfg, t)
  {
    hide Dead;
  }

  lemma SteadyClient<T>(cfg: Config, s: State<T>, a: ClientAction<T>)
    requires Steady(cfg, s) && ClientEnabled(cfg, s, a)
    ensures Steady(cfg, ClientNext(cfg, s, a))
  {
    hide Dead, Steady, ClientNext, ClientEnabled;
    if Dead(cfg, s) {
      DeadClient(cfg, s, a);
    }
    ClientLeaves(cfg, s, a);
    SteadyOther(cfg, s, ClientNext(cfg, s, a));
  }

  lemma SteadyStart<T>(cfg: Config, s: State<T>, a: StartAction)
    requires Steady(cfg, s) && StartEnabled(s, a)
    ensures Steady(cfg, StartNext(cfg, s, a))
  {
    hide Dead;
    if Dead(cfg, s) {
      DeadStart(cfg, s, a);
    }
  }

  lemma SteadyWork<T>(cfg: Config, s: State<T>, i: nat, w: WorkerAction)
    requires Steady(cfg, s) && WorkerEnabled(cfg, s, i, w)
    ensures Steady(cfg, WorkerNext(cfg, s, i, w))
  {
    hide Dead, Steady, WorkerNext, WorkerEnabled;
    if Dead(cfg, s) {
      DeadWork(cfg, s, i, w);
    }
    WorkLeaves(cfg, s, i, w);
    SteadyOther(cfg, s, WorkerNext(cfg, s, i, w));
  }

  lemma SteadyStep<T>(cfg: Config, s: State<T>, a: Action<T>)
    requires NeverShrinks(cfg) && Steady(cfg, s) && CountersExact(cfg, s) && Enabled(cfg, s, a)
    ensures Steady(cfg, Next(cfg, s, a))
  {
    hide Steady, CountersExact, NeverShrinks, ClientNext, StartNext, ScalerNext, WorkerNext, ClientEnabled,
      StartEnabled, ScalerEnabled, WorkerEnabled;
    match a
    case Client(b) => SteadyClient(cfg, s, b);
    case Start(b) => SteadyStart(cfg, s, b);
    case Scale(b) =>
      if b.LoadLast? {
        SteadyDecide(cfg, s);
      } else {
        SteadyScale(cfg, s, b);
      }
    case Work(i, w) => SteadyWork(cfg, s, i, w);
  }

  lemma {:induction false} SteadyRun<T>(cfg: Config, s: State<T>, run: seq<Action<T>>)
    requires NeverShrinks(cfg) && Steady(cfg, s) && CountersExact(cfg, s)
    ensures Run(cfg, s, run).Some? ==> Steady(cfg, Run(cfg, s, run).value)
    decreases |run|
  {
    hide Next, Enabled, NeverShrinks, Steady, CountersExact;
    if run != [] && Enabled(cfg, s, run[0]) {
      SteadyStep(cfg, s, run[0]);
      CountersStep(cfg, s, run[0]);
      SteadyRun(cfg, Next(cfg, s, run[0]), run[1..]);
    }
  }

  lemma BeginsSteady<T>(cfg: Config, s: State<T>)
    requires s.workers == [] && s.active == 0 && s.scaler == Absent && s.starter == Starting && s.log.downs == []
    requires s.log.sent == []
    ensures Steady(cfg, s)
  {
  }

  lemma NeverShrunk<T(!new)>(cfg: Config, s: State<T>)
    requires cfg.Valid() && NeverShrinks(cfg) && Reachable(cfg, s)
    ensures s.log.downs == [] && s.log.sent == [] && !s.scaler.Deflating?
  {
    hide Run, NeverShrinks, CountersExact, Conserved, DropsBounded, ErrorsTraced, Dead;
    var run :| Run(cfg, Initially<T>(), run) == Some(s);
    SafeInitially<T>(cfg);
    BeginsSteady(cfg, Initially<T>());
    SteadyRun(cfg, Initially<T>(), run);
  }

  /** The pool keeps its floor of min workers while nothing asks it to stop. */
  ghost predicate KeepsFloor<T(!new)>(cfg: Config) {
    forall s: State<T> :: Reachable(cfg, s) && Undisturbed(s) ==> Promised(cfg, s) >= cfg.min
  }

  /** The same, asked only of runs in which every scale-down was decided with deflateCh empty at the load. */
  ghost predicate KeepsFloorUnhurried<T(!new)>(cfg: Config) {
    forall s: State<T> :: Reachable(cfg, s) && Undisturbed(s) && Unhurried(s.log.downs) ==> Promised(cfg, s) >= cfg.min
  }

  /** While nothing asks it to stop, the pool can lose its last worker for good. */
  ghost predicate CanDie<T(!new)>(cfg: Config) {
    exists s: State<T> :: Reachable(cfg, s) && Undisturbed(s) && Unhurried(s.log.downs) && Dead(cfg, s)
  }

  lemma NobodyPromised<T>(cfg: Config, s: State<T>)
    requires Dead(cfg, s)
    ensures Promised(cfg, s) <= 0
  {
    hide Tally;
    TallyNone(s.workers, Launched);
  }

  lemma FloorIfNeverShrinks<T(!new)>(cfg: Config)
    requires cfg.Valid() && NeverShrinks(cfg)
    ensures KeepsFloor<T>(cfg)
  {
    hide Run, Promised, NeverShrinks, Initially;
    forall s: State<T> | Reachable(cfg, s) && Undisturbed(s) ensures Promised(cfg, s) >= cfg.min {
      NeverShrunk(cfg, s);
      var run :| Run(cfg, Initially<T>(), run) == Some(s);
      FloorAlways(cfg, run);
    }
  }

  /** The floor is kept in every run exactly under the options that never scale down. Waiting for deflateCh
      to be empty before each scale-down does not help: a token already taken still counts. */
  lemma FloorExactly<T(!new)>(cfg: Config, x: T)
    requires cfg.Valid()
    ensures KeepsFloor<T>(cfg) <==> NeverShrinks(cfg)
    ensures KeepsFloorUnhurried<T>(cfg) <==> NeverShrinks(cfg)
  {
    hide Reachable, Promised, Dead, Undisturbed;
    if NeverShrinks(cfg) {
      FloorIfNeverShrinks<T>(cfg);
    } else {
      var s := Dies(cfg, x);
      NobodyPromised(cfg, s);
    }
  }

  /** The pool can die, and stay dead by DeadStays, exactly when min is negative or it can scale down. */
  lemma DiesExactly<T(!new)>(cfg: Config, x: T)
    requires cfg.Valid()
    ensures CanDie<T>(cfg) <==> cfg.min < 0 || !NeverShrinks(cfg)
  {
    hide Reachable, Promised, Dead, Undisturbed;
    if cfg.min < 0 {
      BornDead<T>(cfg);
    } else if !NeverShrinks(cfg) {
      var s := Dies(cfg, x);
    } else {
      FloorIfNeverShrinks<T>(cfg);
      forall s: State<T> | Reachable(cfg, s) && Undisturbed(s) ensures !Dead(cfg, s) {
        if Dead(cfg, s) {
          NobodyPromised(cfg, s);
        }
      }
    }
  }

  lemma BornDead<T(!new)>(cfg: Config)
    requires cfg.min < 0
    ensures Reachable<T>(cfg, Initially()) && Undisturbed<T>(Initially()) && Dead<T>(cfg, Initially())
    ensures Unhurried(Initially<T>().log.downs)
  {
    hide Reachable;
    Begins<T>(cfg);
  }
}
