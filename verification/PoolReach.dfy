/** Ready-made pieces of runs: what the pool can be made to do, one goroutine at a time. */
module PoolReach {
  import opened Wrappers
  import opened Pool
  import opened PoolFloor

  ghost predicate Reachable<T(!new)>(cfg: Config, s: State<T>) {
    exists run :: Run(cfg, Initially<T>(), run) == Some(s)
  }

  lemma {:induction false} RunThen<T>(cfg: Config, s: State<T>, run: seq<Action<T>>, a: Action<T>)
    requires Run(cfg, s, run).Some? && Enabled(cfg, Run(cfg, s, run).value, a)
    ensures Run(cfg, s, run + [a]) == Some(Next(cfg, Run(cfg, s, run).value, a))
    decreases |run|
  {
    hide Next, Enabled;
    if run == [] {
      assert run + [a] == [a];
      assert Run(cfg, s, [a]) == Run(cfg, Next(cfg, s, a), []);
    } else {
      RunThen(cfg, Next(cfg, s, run[0]), run[1..], a);
      assert (run + [a])[1..] == run[1..] + [a];
    }
  }

  lemma Do<T(!new)>(cfg: Config, s: State<T>, a: Action<T>) returns (t: State<T>)
    requires Reachable(cfg, s) && Enabled(cfg, s, a)
    ensures Reachable(cfg, t) && t == Next(cfg, s, a)
  {
    hide Next, Enabled, Run, Initially;
    var run :| Run(cfg, Initially<T>(), run) == Some(s);
    t := Next(cfg, s, a);
    RunThen(cfg, Initially<T>(), run, a);
  }

  // ----- the workers, in a line -----

  datatype Role = Idle | Working | Holding | Told | Left

  predicate Has(r: Role, pc: Pc) {
    match r
    case Idle => pc == Select
    case Working => pc.Handling?
    case Holding => pc.Got?
    case Told => pc == Return(None, true)
    case Left => pc == Exit(None)
  }

  /** k workers: the first d in one role, the others in another. */
  ghost predicate Line<T>(s: State<T>, k: nat, d: nat, first: Role, rest: Role) {
    && d <= k == |s.workers|
    && (forall i :: 0 <= i < d ==> Has(first, s.workers[i]))
    && (forall i :: d <= i < k ==> Has(rest, s.workers[i]))
  }

  /** Nothing is queued, no token is in the channel, and nothing asked the pool to stop. */
  ghost predicate Calm<T>(s: State<T>) {
    && Undisturbed(s) && !s.stopping && !s.channelClosed && s.queue == [] && s.tokens == 0
    && s.scaler == Waiting && Unhurried(s.log.downs)
  }

  /** Only workers, their counters, clients and deliveries differ. */
  ghost predicate Same<T>(s: State<T>, t: State<T>) {
    && t == s.(workers := t.workers, active := t.active, busy := t.busy, submits := t.submits, log := t.log)
    && t.log == s.log.(accepted := t.log.accepted, received := t.log.received, owner := t.log.owner,
                       entered := t.log.entered, finished := t.log.finished)
  }

  /** A started worker gets counted. */
  lemma Join<T(!new)>(cfg: Config, s: State<T>, i: nat) returns (t: State<T>)
    requires Reachable(cfg, s) && i < |s.workers| && s.workers[i] == Load && s.active < cfg.max
    ensures Reachable(cfg, t) && t == s.(workers := s.workers[i := Select], active := s.active + 1)
  {
    hide Reachable, ScalerNext, ScalerEnabled, ClientNext, ClientEnabled, StartNext, StartEnabled;
    t := Do(cfg, s, Work(i, LoadCount));
    assert t.workers == s.workers[i := Cas(s.active)];
    t := Do(cfg, t, Work(i, TryCas));
    assert t.workers == s.workers[i := Select];
  }

  /** A client submits an item. */
  lemma Submit<T(!new)>(cfg: Config, s: State<T>, x: T) returns (t: State<T>)
    requires Reachable(cfg, s) && !s.closed && !s.channelClosed && |s.queue| < cfg.max
    ensures Reachable(cfg, t)
    ensures t == s.(submits := t.submits, queue := s.queue + [x], log := s.log.(accepted := s.log.accepted + [x]))
  {
    hide Reachable, ScalerNext, ScalerEnabled, WorkerNext, WorkerEnabled, StartNext, StartEnabled;
    var j := |s.submits|;
    t := Do(cfg, s, Client(BeginSubmit(x)));
    t := Do(cfg, t, Client(CheckClosed(j)));
    t := Do(cfg, t, Client(Send(j)));
  }

  /** A client submits an item and idle worker i receives it. */
  lemma Hand<T(!new)>(cfg: Config, s: State<T>, x: T, i: nat) returns (t: State<T>)
    requires Reachable(cfg, s) && !s.closed && !s.channelClosed && s.queue == [] && cfg.max >= 1
    requires i < |s.workers| && s.workers[i] == Select
    ensures Reachable(cfg, t) && Same(s, t) && t.active == s.active && t.busy == s.busy
    ensures t.workers == s.workers[i := Got(s.log.received)]
  {
    hide Reachable, ScalerNext, ScalerEnabled, ClientNext, ClientEnabled, StartNext, StartEnabled;
    var u := Submit(cfg, s, x);
    t := Do(cfg, u, Work(i, Receive));
    assert t.queue == s.queue;
  }

  /** A worker that received an item enters the handler. */
  lemma Enters<T(!new)>(cfg: Config, s: State<T>, i: nat) returns (t: State<T>)
    requires Reachable(cfg, s) && i < |s.workers| && s.workers[i].Got? && !s.stopping
    ensures Reachable(cfg, t) && Same(s, t) && t.active == s.active && t.busy == s.busy + 1
    ensures t.workers == s.workers[i := Handling(s.workers[i].item)]
  {
    hide Reachable, ScalerNext, ScalerEnabled, ClientNext, ClientEnabled, StartNext, StartEnabled;
    var k := s.workers[i].item;
    t := Do(cfg, s, Work(i, LoadStopping));
    assert t.workers == s.workers[i := Enter(k)];
    t := Do(cfg, t, Work(i, IncBusy));
    assert t.workers == s.workers[i := Handling(k)];
  }

  /** A handler succeeds. */
  lemma Finishes<T(!new)>(cfg: Config, s: State<T>, i: nat) returns (t: State<T>)
    requires Reachable(cfg, s) && i < |s.workers| && s.workers[i].Handling?
    ensures Reachable(cfg, t) && Same(s, t) && t.active == s.active && t.busy == s.busy - 1
    ensures t.workers == s.workers[i := Select]
  {
    hide Reachable, ScalerNext, ScalerEnabled, ClientNext, ClientEnabled, StartNext, StartEnabled;
    var k := s.workers[i].item;
    t := Do(cfg, s, Work(i, EndHandler(false)));
    assert t.workers == s.workers[i := Leave(k, false)];
    t := Do(cfg, t, Work(i, DecBusy));
    assert t.workers == s.workers[i := Select];
  }

  /** A tick, up to the decision. */
  lemma Measure<T(!new)>(cfg: Config, s: State<T>, now: int) returns (t: State<T>)
    requires Reachable(cfg, s) && s.scaler == Waiting && s.active != 0 && s.clock <= now
    ensures Reachable(cfg, t)
    ensures var next := Decide(cfg, s.active, s.busy, now, s.last);
            t == s.(scaler := next, clock := now,
                    log := Decided(s.log, s.active, now, next, Backlog(s.tokens, Tally(s.workers, Deflated))))
  {
    hide Reachable, WorkerNext, WorkerEnabled, ClientNext, ClientEnabled, StartNext, StartEnabled, Tally, Decide,
      Decided;
    t := Do(cfg, s, Scale(Tick));
    t := Do(cfg, t, Scale(LoadActive));
    t := Do(cfg, t, Scale(LoadBusy));
    t := Do(cfg, t, Scale(ReadClock(now)));
    t := Do(cfg, t, Scale(LoadLast));
  }

  /** The first instant at which the cooldown is over. */
  function Ripe<T>(cfg: Config, s: State<T>): int {
    if s.clock > s.last + cfg.cooldown then s.clock else s.last + cfg.cooldown
  }

  /** With every worker busy and room for more, a tick starts one more. */
  lemma ScaleUp<T(!new)>(cfg: Config, s: State<T>) returns (t: State<T>)
    requires cfg.Valid() && Reachable(cfg, s) && Calm(s) && 1 <= s.active == s.busy && s.active < cfg.max
    ensures Reachable(cfg, t) && Calm(t) && t.workers == s.workers + [Load]
    ensures t.active == s.active && t.busy == s.busy && t.starter == s.starter && t.log.dropped == s.log.dropped
  {
    hide Reachable, WorkerNext, WorkerEnabled, ClientNext, ClientEnabled, StartNext, StartEnabled, Tally;
    var now := Ripe(cfg, s);
    assert s.busy as real / s.active as real == 1.0;
    var u := Measure(cfg, s, now);
    assert u.scaler == Spawning(now);
    t := Do(cfg, u, Scale(CheckSpawn));
    t := Do(cfg, t, Scale(GoSpawn));
    t := Do(cfg, t, Scale(StoreLast));
  }

  /** With one worker more than min and none busy, a tick decides to send one token. */
  lemma AskOne<T(!new)>(cfg: Config, s: State<T>) returns (t: State<T>)
    requires cfg.Valid() && cfg.min >= 1 && 0.0 < cfg.minLoad && Reachable(cfg, s)
    requires s.scaler == Waiting && s.active == cfg.min + 1 && s.busy == 0
    ensures Reachable(cfg, t)
    ensures var now, backlog := Ripe(cfg, s), Backlog(s.tokens, Tally(s.workers, Deflated));
            t == s.(scaler := Deflating(now, 1), clock := now,
                    log := Decided(s.log, s.active, now, Deflating(now, 1), backlog))
  {
    hide Reachable, Tally, Decided;
    assert s.busy as real / s.active as real == 0.0;
    t := Measure(cfg, s, Ripe(cfg, s));
  }

  /** Then it is sent, and worker i takes it. */
  lemma ScaleDown<T(!new)>(cfg: Config, s: State<T>, i: nat) returns (t: State<T>)
    requires cfg.Valid() && cfg.min >= 1 && 0.0 < cfg.minLoad && Reachable(cfg, s) && Calm(s)
    requires s.active == cfg.min + 1 && s.busy == 0 && i < |s.workers| && s.workers[i] == Select
    ensures Reachable(cfg, t) && Calm(t) && t.workers == s.workers[i := Return(None, true)]
    ensures t.active == s.active && t.busy == s.busy && t.starter == s.starter
  {
    hide Reachable, ClientNext, ClientEnabled, StartNext, StartEnabled, Tally, WorkerNext, WorkerEnabled, Credit;
    t := AskOne(cfg, s);
    t := Do(cfg, t, Scale(SendToken));
    t := Do(cfg, t, Scale(SendToken));
    t := Do(cfg, t, Scale(StoreLast));
    t := Grab(cfg, t, i);
  }

  lemma Grab<T(!new)>(cfg: Config, s: State<T>, i: nat) returns (t: State<T>)
    requires Reachable(cfg, s) && i < |s.workers| && s.workers[i] == Select && s.tokens > 0
    ensures Reachable(cfg, t) && t == s.(workers := s.workers[i := Return(None, true)], tokens := s.tokens - 1)
  {
    hide Reachable, ScalerNext, ScalerEnabled, ClientNext, ClientEnabled, StartNext, StartEnabled;
    t := Do(cfg, s, Work(i, TakeToken));
  }
}
