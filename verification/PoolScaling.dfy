/** Scaling decisions: how often they can be taken, and what repeated scale-downs converge to. */
module PoolScaling {
  import opened Wrappers
  import opened Pool
  import opened Powers

  // ----- rate -----

  /** A decision has been taken and its time is not yet stored. */
  function Pending(pc: ScalerPc): Option<int> {
    if pc.Spawning? || pc.Launching? || pc.Deflating? || pc.Storing? then Some(pc.now) else None
  }

  ghost predicate Spaced(d: seq<int>, cooldown: int) {
    forall i :: 0 < i < |d| ==> d[i] - d[i - 1] >= cooldown
  }

  ghost predicate RateKept<T>(cfg: Config, s: State<T>) {
    var d := s.log.decisions;
    && Spaced(d, cfg.cooldown)
    && (Pending(s.scaler).Some? ==> |d| > 0 && d[|d| - 1] == Pending(s.scaler).value)
    && (Pending(s.scaler).None? && |d| > 0 ==> s.last == d[|d| - 1])
  }

  lemma RateDecide<T>(cfg: Config, s: State<T>)
    requires RateKept(cfg, s) && ScalerEnabled(s, LoadLast)
    ensures RateKept(cfg, ScalerNext(cfg, s, LoadLast))
  {
    hide Removal, Decide, ScalerNext;
    ScaleRecords(cfg, s, LoadLast);
  }

  lemma RateStore<T>(cfg: Config, s: State<T>)
    requires RateKept(cfg, s) && ScalerEnabled(s, StoreLast)
    ensures RateKept(cfg, ScalerNext(cfg, s, StoreLast))
  {
    hide Spaced, ScalerNext;
    ScaleRecords(cfg, s, StoreLast);
  }

  lemma RateOther<T>(cfg: Config, s: State<T>, t: State<T>)
    requires RateKept(cfg, s)
    requires t.last == s.last && t.log.decisions == s.log.decisions
    requires Pending(t.scaler) == Pending(s.scaler)
    ensures RateKept(cfg, t)
  {
    hide Spaced, Pending;
  }

  lemma RateScale<T>(cfg: Config, s: State<T>, a: ScalerAction)
    requires RateKept(cfg, s) && ScalerEnabled(s, a)
    ensures RateKept(cfg, ScalerNext(cfg, s, a))
  {
    hide RateKept, ScalerNext, Decide, Tally;
    ScaleRecords(cfg, s, a);
    match a
    case LoadLast => RateDecide(cfg, s);
    case StoreLast => RateStore(cfg, s);
    case _ => RateOther(cfg, s, ScalerNext(cfg, s, a));
  }

  lemma RateClient<T>(cfg: Config, s: State<T>, a: ClientAction<T>)
    requires RateKept(cfg, s) && ClientEnabled(cfg, s, a)
    ensures RateKept(cfg, ClientNext(cfg, s, a))
  {
    hide RateKept, Pending, ClientNext, ClientEnabled;
    ClientLeaves(cfg, s, a);
    RateOther(cfg, s, ClientNext(cfg, s, a));
  }

  lemma RateStart<T>(cfg: Config, s: State<T>, a: StartAction)
    requires RateKept(cfg, s) && StartEnabled(s, a)
    ensures RateKept(cfg, StartNext(cfg, s, a))
  {
    hide RateKept;
    RateOther(cfg, s, StartNext(cfg, s, a));
  }

  lemma RateWork<T>(cfg: Config, s: State<T>, i: nat, a: WorkerAction)
    requires RateKept(cfg, s) && WorkerEnabled(cfg, s, i, a)
    ensures RateKept(cfg, WorkerNext(cfg, s, i, a))
  {
    hide RateKept, Pending, WorkerNext, WorkerEnabled;
    WorkLeaves(cfg, s, i, a);
    RateOther(cfg, s, WorkerNext(cfg, s, i, a));
  }

  lemma RateStep<T>(cfg: Config, s: State<T>, a: Action<T>)
    requires RateKept(cfg, s) && Enabled(cfg, s, a)
    ensures RateKept(cfg, Next(cfg, s, a))
  {
    hide ClientNext, StartNext, ScalerNext, WorkerNext, StartEnabled, ScalerEnabled, WorkerEnabled, ClientEnabled,
      RateKept;
    match a
    case Client(b) => RateClient(cfg, s, b);
    case Start(b) => RateStart(cfg, s, b);
    case Scale(b) => RateScale(cfg, s, b);
    case Work(i, w) => RateWork(cfg, s, i, w);
  }

  lemma {:induction false} RateRun<T>(cfg: Config, s: State<T>, run: seq<Action<T>>)
    requires RateKept(cfg, s)
    ensures Run(cfg, s, run).Some? ==> RateKept(cfg, Run(cfg, s, run).value)
    decreases |run|
  {
    hide Next, Enabled, RateKept;
    if run != [] && Enabled(cfg, s, run[0]) {
      RateStep(cfg, s, run[0]);
      RateRun(cfg, Next(cfg, s, run[0]), run[1..]);
    }
  }

  /** The decisions whose time lies in [t0, t1]. */
  function Within(d: seq<int>, t0: int, t1: int): nat {
    if |d| == 0 then 0
    else Within(d[..|d| - 1], t0, t1) + if t0 <= d[|d| - 1] <= t1 then 1 else 0
  }

  lemma {:induction false} SpacedApart(d: seq<int>, cooldown: int, i: nat, j: nat)
    requires Spaced(d, cooldown) && i <= j < |d|
    ensures d[j] - d[i] >= (j - i) * cooldown
  {
    if i < j {
      SpacedApart(d, cooldown, i, j - 1);
      assert (j - i) * cooldown == (j - 1 - i) * cooldown + cooldown;
    }
  }

  /** A window with decisions in it has a first and a last one, at least that many apart. */
  lemma {:induction false} FirstAndLast(d: seq<int>, t0: int, t1: int) returns (i: nat, j: nat)
    requires Within(d, t0, t1) >= 1
    ensures i <= j < |d| && t0 <= d[i] <= t1 && t0 <= d[j] <= t1 && Within(d, t0, t1) <= j - i + 1
  {
    var n := |d| - 1;
    if Within(d[..n], t0, t1) == 0 {
      i, j := n, n;
    } else {
      i, j := FirstAndLast(d[..n], t0, t1);
      if t0 <= d[n] <= t1 {
        j := n;
      }
    }
  }

  /** Rate bound: k scaling decisions within [t0, t1] satisfy (k - 1) * cooldown <= t1 - t0, in any run. */
  lemma RateBound<T>(cfg: Config, run: seq<Action<T>>, t0: int, t1: int)
    requires Run(cfg, Initially<T>(), run).Some?
    ensures var k := Within(Run(cfg, Initially<T>(), run).value.log.decisions, t0, t1);
            k >= 1 ==> (k - 1) * cfg.cooldown <= t1 - t0
  {
    hide Run, Pending;
    StartsSpaced<T>(cfg);
    RateRun(cfg, Initially<T>(), run);
    var d := Run(cfg, Initially<T>(), run).value.log.decisions;
    var k := Within(d, t0, t1);
    if k >= 1 {
      var i, j := FirstAndLast(d, t0, t1);
      SpacedApart(d, cfg.cooldown, i, j);
      SmallerMultiple(k - 1, j - i, cfg.cooldown, t1 - t0);
    }
  }

  lemma StartsSpaced<T>(cfg: Config)
    ensures RateKept<T>(cfg, Initially())
  {
  }

  lemma SmallerMultiple(m: nat, n: nat, c: int, bound: int)
    requires m <= n && n * c <= bound && 0 <= bound
    ensures m * c <= bound
  {
    if c >= 0 {
      assert (n - m) * c >= 0;
      assert n * c == m * c + (n - m) * c;
    } else {
      assert m * c <= 0;
    }
  }

  // ----- one decision a tick -----

  /** Decisions taken, plus one while a tick is being looked at. */
  function Spent<T>(s: State<T>): nat {
    |s.log.decisions|
    + if s.scaler.Ticked? || s.scaler.LoadedActive? || s.scaler.LoadedBusy? || s.scaler.ReadTime? then 1 else 0
  }

  function Ticks<T>(run: seq<Action<T>>): nat {
    if |run| == 0 then 0 else (if run[0] == Scale(Tick) then 1 else 0) + Ticks(run[1..])
  }

  lemma SpentScale<T>(cfg: Config, s: State<T>, a: ScalerAction)
    requires ScalerEnabled(s, a)
    ensures Spent(ScalerNext(cfg, s, a)) <= Spent(s) + if a.Tick? then 1 else 0
  {
    hide ScalerNext, Decide, Tally;
    ScaleRecords(cfg, s, a);
  }

  lemma SpentStart<T>(cfg: Config, s: State<T>, a: StartAction)
    requires StartEnabled(s, a)
    ensures Spent(StartNext(cfg, s, a)) <= Spent(s)
  {
  }

  lemma SpentOther<T>(cfg: Config, s: State<T>, a: Action<T>)
    requires Enabled(cfg, s, a) && !a.Scale?
    ensures Spent(Next(cfg, s, a)) <= Spent(s)
  {
    hide ClientNext, ClientEnabled, StartNext, StartEnabled, ScalerNext, ScalerEnabled, WorkerNext, WorkerEnabled;
    match a
    case Client(b) => ClientLeaves(cfg, s, b);
    case Start(b) => SpentStart(cfg, s, b);
    case Work(i, w) => WorkLeaves(cfg, s, i, w);
  }

  lemma {:induction false} SpentRun<T>(cfg: Config, s: State<T>, run: seq<Action<T>>)
    ensures Run(cfg, s, run).Some? ==> Spent(Run(cfg, s, run).value) <= Spent(s) + Ticks(run)
    decreases |run|
  {
    hide Next, Spent, ScalerNext, ScalerEnabled, ClientEnabled, StartEnabled, WorkerEnabled;
    if run != [] && Enabled(cfg, s, run[0]) {
      SpentStep(cfg, s, run[0]);
      SpentRun(cfg, Next(cfg, s, run[0]), run[1..]);
    }
  }

  lemma SpentStep<T>(cfg: Config, s: State<T>, a: Action<T>)
    requires Enabled(cfg, s, a)
    ensures Spent(Next(cfg, s, a)) <= Spent(s) + if a == Scale(Tick) then 1 else 0
  {
    hide ScalerNext, ClientNext, StartNext, WorkerNext, ScalerEnabled, ClientEnabled, StartEnabled, WorkerEnabled,
      Spent;
    if a.Scale? {
      SpentScale(cfg, s, a.a);
    } else {
      SpentOther(cfg, s, a);
    }
  }

  /** Each tick leads to at most one scaling decision. */
  lemma OneDecisionPerTick<T>(cfg: Config, run: seq<Action<T>>)
    requires Run(cfg, Initially<T>(), run).Some?
    ensures |Run(cfg, Initially<T>(), run).value.log.decisions| <= Ticks(run)
  {
    hide Run, Ticks;
    SpentRun(cfg, Initially<T>(), run);
  }

  /** A scale-down asks for at least one worker and never for more than the surplus over min. */
  lemma RemovalBounds(active: int, min: int)
    ensures active > min ==> 1 <= Removal(active, min) <= active - min
  {
  }

  // ----- convergence -----

  /** The workers left after k scale-downs whose tokens have all been taken. */
  function AfterScaleDowns(active: int, min: int, k: nat): int {
    if k == 0 then active
    else
      var a := AfterScaleDowns(active, min, k - 1);
      if a > min then a - Removal(a, min) else a
  }

  /** a / p, rounded up. */
  function CeilDiv(a: nat, p: nat): nat
    requires p >= 1
  {
    (a + p - 1) / p
  }

  lemma CeilDivIs(a: nat, p: nat, q: nat)
    requires p >= 1
    ensures CeilDiv(a, p) <= q <==> a <= q * p
  {
    var c := CeilDiv(a, p);
    var r := (a + p - 1) % p;
    assert a + p - 1 == c * p + r && 0 <= r < p;
    if c <= q {
      assert c * p <= q * p;
    } else {
      assert (q + 1) * p <= c * p;
      assert (q + 1) * p == q * p + p;
    }
  }

  /** Halving twice rounds up like dividing once. */
  lemma CeilHalf(a: nat, p: nat)
    requires p >= 1
    ensures CeilDiv(CeilDiv(a, p), 2) == CeilDiv(a, 2 * p)
  {
    var b, c := CeilDiv(CeilDiv(a, p), 2), CeilDiv(a, 2 * p);
    CeilDivIs(CeilDiv(a, p), 2, b);
    CeilDivIs(a, p, b * 2);
    assert b * 2 * p == b * (2 * p);
    CeilDivIs(a, 2 * p, b);
    CeilDivIs(a, 2 * p, c);
    assert c * 2 * p == c * (2 * p);
    CeilDivIs(a, p, c * 2);
    CeilDivIs(CeilDiv(a, p), 2, c);
  }

  lemma CeilTwo(b: nat)
    ensures CeilDiv(b, 2) == b - b / 2
  {
  }

  /** Idle convergence: after k scale-downs from a >= min workers, max(min, ceil(a / 2^k)) are left. */
  lemma {:induction false} Converges(active: nat, min: nat, k: nat)
    requires active >= min >= 1
    ensures var c := CeilDiv(active, Pow2(k));
            AfterScaleDowns(active, min, k) == if c > min then c else min
  {
    if k == 0 {
      assert CeilDiv(active, 1) == active;
    } else {
      Converges(active, min, k - 1);
      CeilHalf(active, Pow2(k - 1));
      CeilTwo(CeilDiv(active, Pow2(k - 1)));
    }
  }

  /** It reaches min after exactly the least k with a <= min * 2^k, and never undershoots it. */
  lemma ReachesMin(active: nat, min: nat, k: nat)
    requires active >= min >= 1
    ensures AfterScaleDowns(active, min, k) >= min
    ensures AfterScaleDowns(active, min, k) == min <==> active <= min * Pow2(k)
  {
    Converges(active, min, k);
    CeilDivIs(active, Pow2(k), min);
  }
}
