/** Nothing is ever stuck: from every reachable state of a canceled pool, Start can be brought to return. */
module PoolProgress {
  import opened Wrappers
  import opened Pool
  import opened PoolSafety
  import opened PoolShutdown
  import opened PoolTokens
  import opened PoolReach

  /** Some run leads from s to t. */
  ghost predicate Leads<T(!new)>(cfg: Config, s: State<T>, t: State<T>) {
    exists run :: Run(cfg, s, run) == Some(t)
  }

  lemma Stay<T(!new)>(cfg: Config, s: State<T>)
    ensures Leads(cfg, s, s)
  {
    assert Run(cfg, s, []) == Some(s);
  }

  lemma Go<T(!new)>(cfg: Config, s: State<T>, u: State<T>, a: Action<T>) returns (t: State<T>)
    requires Leads(cfg, s, u) && Enabled(cfg, u, a)
    ensures Leads(cfg, s, t) && t == Next(cfg, u, a)
  {
    hide Next, Enabled, Run;
    var run :| Run(cfg, s, run) == Some(u);
    t := Next(cfg, u, a);
    RunThen(cfg, s, run, a);
  }

  // ----- one worker -----

  /** Steps a worker is from Gone, if nothing else moves. */
  function Distance(pc: Pc, active: int): nat {
    match pc
    case Load => 10
    case Cas(seen) => if seen == active then 9 else 11
    case Got(_) => 8
    case Enter(_) => 7
    case Handling(_) => 6
    case Leave(_, _) => 5
    case Select => 4
    case ClosedSeen => 4
    case Return(_, _) => 3
    case Exit(_) => 2
    case Gone => 0
  }

  /** The step that takes a worker of a canceled pool closer to Gone. */
  function Exiting(pc: Pc): WorkerAction {
    match pc
    case Load => LoadCount
    case Cas(_) => TryCas
    case Got(_) => LoadStopping
    case Enter(_) => IncBusy
    case Handling(_) => EndHandler(false)
    case Leave(_, _) => DecBusy
    case Select => SeeCanceled
    case ClosedSeen => StoreStopping
    case Return(_, _) => DecActive
    case Exit(_) => Record
    case Gone => Record
  }

  lemma Closer<T>(cfg: Config, s: State<T>, i: nat)
    requires s.canceled && i < |s.workers| && s.workers[i] != Gone
    ensures WorkerEnabled(cfg, s, i, Exiting(s.workers[i]))
    ensures var t := WorkerNext(cfg, s, i, Exiting(s.workers[i]));
            Distance(t.workers[i], t.active) < Distance(s.workers[i], s.active)
  {
    hide WorkerNext;
    WorkLeaves(cfg, s, i, Exiting(s.workers[i]));
  }

  /** Only worker i has moved. */
  ghost predicate OthersStand<T>(s: State<T>, t: State<T>, i: nat) {
    && t.canceled && t.scaler == s.scaler && t.starter == s.starter && |t.workers| == |s.workers|
    && forall k :: 0 <= k < |s.workers| && k != i ==> t.workers[k] == s.workers[k]
  }

  lemma {:induction false} Leaves<T(!new)>(cfg: Config, s0: State<T>, s: State<T>, i: nat) returns (t: State<T>)
    requires Leads(cfg, s0, s) && s.canceled && i < |s.workers|
    ensures Leads(cfg, s0, t) && OthersStand(s, t, i) && t.workers[i] == Gone
    decreases Distance(s.workers[i], s.active)
  {
    hide Leads, WorkerNext, WorkerEnabled, Distance, Exiting;
    if s.workers[i] == Gone {
      t := s;
    } else {
      var a := Exiting(s.workers[i]);
      Closer(cfg, s, i);
      WorkLeaves(cfg, s, i, a);
      t := Go(cfg, s0, s, Work(i, a));
      t := Leaves(cfg, s0, t, i);
    }
  }

  /** Workers n and beyond are gone. */
  ghost predicate GoneFrom<T>(s: State<T>, n: nat) {
    n <= |s.workers| && forall k :: n <= k < |s.workers| ==> s.workers[k] == Gone
  }

  lemma {:induction false} AllLeave<T(!new)>(cfg: Config, s0: State<T>, s: State<T>, n: nat) returns (t: State<T>)
    requires Leads(cfg, s0, s) && s.canceled && GoneFrom(s, n)
    ensures Leads(cfg, s0, t) && Quiet(t) && t.canceled && t.scaler == s.scaler && t.starter == s.starter
    decreases n
  {
    hide Leads;
    if n == 0 {
      t := s;
    } else {
      t := Leaves(cfg, s0, s, n - 1);
      t := AllLeave(cfg, s0, t, n - 1);
    }
  }

  // ----- the autoscaler -----

  function Tries(left: int): nat {
    if left > 0 then left else 0
  }

  /** How far the autoscaler is from having returned; sending tokens takes a turn for each. */
  function Stage(pc: ScalerPc): nat {
    match pc
    case Absent => 0
    case Recorded => 0
    case Stopped(_) => 1
    case Waiting => 2
    case Storing(_) => 3
    case Launching(_) => 4
    case Spawning(_) => 5
    case Deflating(_, _) => 6
    case ReadTime(_, _, _, _) => 7
    case LoadedBusy(_, _, _) => 8
    case LoadedActive(_, _) => 9
    case Ticked => 10
  }

  function Unsent(pc: ScalerPc): nat {
    if pc.Deflating? then Tries(pc.left) else 0
  }

  function Closing<T>(s: State<T>): ScalerAction {
    match s.scaler
    case Waiting => SeeCancel
    case Storing(_) => StoreLast
    case Launching(_) => GoSpawn
    case Spawning(_) => CheckSpawn
    case Deflating(_, _) => SendToken
    case ReadTime(_, _, _, _) => LoadLast
    case LoadedBusy(_, _, _) => ReadClock(s.clock)
    case LoadedActive(_, _) => LoadBusy
    case Ticked => LoadActive
    case _ => RecordScaler
  }

  /** A tick on an empty pool goes no further. */
  predicate Sober(pc: ScalerPc) {
    pc != Absent && (pc.LoadedBusy? || pc.ReadTime? ==> pc.active != 0)
  }

  lemma ScalerCloser<T>(cfg: Config, s: State<T>)
    requires s.canceled && Sober(s.scaler) && s.scaler != Recorded
    ensures ScalerEnabled(s, Closing(s))
    ensures var pc := ScalerMove(cfg, s, Closing(s));
            && Sober(pc)
            && (Stage(pc) < Stage(s.scaler) || (Stage(pc) == Stage(s.scaler) && Unsent(pc) < Unsent(s.scaler)))
  {
    hide Decide, Removal, Tally;
  }

  lemma {:induction false} ScalerReturns<T(!new)>(cfg: Config, s0: State<T>, s: State<T>) returns (t: State<T>)
    requires Leads(cfg, s0, s) && s.canceled && Sober(s.scaler)
    ensures Leads(cfg, s0, t) && t.canceled && t.scaler == Recorded && t.starter == s.starter
    decreases Stage(s.scaler), Unsent(s.scaler)
  {
    hide Leads, ScalerNext, ScalerEnabled, ScalerMove, Sober;
    if s.scaler == Recorded {
      t := s;
    } else {
      var a := Closing(s);
      ScalerCloser(cfg, s);
      ScaleRecords(cfg, s, a);
      ScaleLeaves(cfg, s, a);
      ScaleEffects(cfg, s, a);
      t := Go(cfg, s0, s, Scale(a));
      t := ScalerReturns(cfg, s0, t);
    }
  }

  // ----- Start -----

  function StarterDistance(pc: StarterPc): nat {
    match pc
    case Initial(left) => 3 * Tries(left) + 1
    case InitialGo(left) => if left > 0 then 3 * left else 2
    case _ => 0
  }

  lemma {:induction false} Launches<T(!new)>(cfg: Config, s0: State<T>, s: State<T>) returns (t: State<T>)
    requires Leads(cfg, s0, s) && s.canceled
    requires s.starter.Initial? || s.starter.InitialGo? || s.starter == Joining
    ensures Leads(cfg, s0, t) && t.canceled && t.scaler == s.scaler && t.starter == Joining
    decreases StarterDistance(s.starter)
  {
    hide Leads, ScalerNext, ScalerEnabled, WorkerNext, WorkerEnabled, ClientNext, ClientEnabled;
    if s.starter == Joining {
      t := s;
    } else {
      t := Go(cfg, s0, s, Start(if s.starter.Initial? then CheckStopping else GoWorker));
      t := Launches(cfg, s0, t);
    }
  }

  /** Start comes to waiting for its group, unless it has returned. */
  lemma Joins<T(!new)>(cfg: Config, s: State<T>) returns (t: State<T>)
    requires s.canceled && StartTraced(s) && (s.scaler != Absent ==> Sober(s.scaler))
    ensures Leads(cfg, s, t) && t.canceled && (t.starter.Returned? || (t.starter == Joining && Sober(t.scaler)))
  {
    hide Leads, ScalerNext, ScalerEnabled, WorkerNext, WorkerEnabled, ClientNext, ClientEnabled;
    t := s;
    Stay(cfg, s);
    if t.starter == Starting {
      t := Go(cfg, s, t, Start(CheckStart));
    }
    if t.starter == StartingScaler {
      t := Go(cfg, s, t, Start(GoScaler));
    }
    if !t.starter.Returned? {
      t := Launches(cfg, s, t);
    }
  }

  lemma ReachableSober<T(!new)>(cfg: Config, s: State<T>)
    requires cfg.Valid() && Reachable(cfg, s)
    ensures StartTraced(s) && (s.scaler != Absent ==> Sober(s.scaler))
  {
    hide Run, Waves, CountersExact, Conserved, DropsBounded, SubmitsExact, WorkerErrors, CancelTraced, StartTraced;
    var run :| Run(cfg, Initially<T>(), run) == Some(s);
    SafeInitially<T>(cfg);
    StartsAccounted<T>(cfg);
    SafeRun(cfg, Initially<T>(), run);
    AccountedRun(cfg, Initially<T>(), run);
  }

  /** Cancellation always lets Start return: from every reachable state of a canceled pool, wherever its goroutines
      are, some run leads to a state in which Start has returned. Nothing can deadlock. */
  lemma CancelReturns<T(!new)>(cfg: Config, s: State<T>) returns (t: State<T>)
    requires cfg.Valid() && Reachable(cfg, s) && s.canceled
    ensures Leads(cfg, s, t) && t.starter.Returned?
  {
    hide Leads, Reachable, ScalerNext, ScalerEnabled, WorkerNext, WorkerEnabled, ClientNext, ClientEnabled, Sober;
    ReachableSober(cfg, s);
    t := Joins(cfg, s);
    if !t.starter.Returned? {
      t := ScalerReturns(cfg, s, t);
      t := AllLeave(cfg, s, t, |t.workers|);
      t := Go(cfg, s, t, Start(Finish));
    }
  }
}
