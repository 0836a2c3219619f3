/** How many accepted items the pool can drop: exactly up to max - 1. */
module PoolDrops {
  import opened Wrappers
  import opened Pool
  import opened PoolSafety
  import opened PoolShutdown
  import opened PoolFloor
  import opened PoolReach
  import opened PoolLimits

  /** Each of the first d workers receives an item and stops short of looking at `stopping`. */
  lemma {:induction false} HandOut<T(!new)>(cfg: Config, x: T, s: State<T>, k: nat, d: nat) returns (t: State<T>)
    requires cfg.Valid() && Reachable(cfg, s) && Calm(s) && d <= k && Line(s, k, 0, Holding, Idle)
    requires s.log.dropped == {}
    ensures Reachable(cfg, t) && Calm(t) && Line(t, k, d, Holding, Idle) && t.log.dropped == {}
    decreases d
  {
    hide Reachable, Initially;
    if d == 0 {
      t := s;
    } else {
      t := HandOut(cfg, x, s, k, d - 1);
      t := Hand(cfg, t, x, d - 1);
    }
  }

  /** Workers j to d hold an undecided item, the pool is stopping, and j items have been dropped. */
  ghost predicate Facing<T>(s: State<T>, j: nat, d: nat) {
    && s.stopping && j <= d <= |s.workers| && |s.log.dropped| == j
    && forall i :: j <= i < d ==> s.workers[i].Got?
  }

  /** The pool is closed, and an idle worker finds that out first. */
  lemma CloseUnder<T(!new)>(cfg: Config, s: State<T>, k: nat, d: nat) returns (t: State<T>)
    requires Reachable(cfg, s) && Calm(s) && Line(s, k, d, Holding, Idle) && s.log.dropped == {} && d < k
    ensures Reachable(cfg, t) && Facing(t, 0, d)
  {
    hide Reachable, Initially, ScalerNext, ScalerEnabled, StartNext, StartEnabled;
    t := Do(cfg, s, Client(CloseFlag));
    t := Do(cfg, t, Client(CloseChannel));
    t := Do(cfg, t, Work(k - 1, SeeClosed));
    assert t.workers == s.workers[k - 1 := ClosedSeen];
    t := Do(cfg, t, Work(k - 1, StoreStopping));
    assert t.workers == s.workers[k - 1 := Return(None, false)];
  }

  lemma DropOne<T(!new)>(cfg: Config, s: State<T>, j: nat, d: nat) returns (t: State<T>)
    requires cfg.Valid() && Reachable(cfg, s) && Facing(s, j, d) && j < d
    ensures Reachable(cfg, t) && Facing(t, j + 1, d)
  {
    hide Reachable, Initially, Conserved, ScalerNext, ScalerEnabled, StartNext, StartEnabled, ClientNext, ClientEnabled;
    AlwaysConserved(cfg, s);
    OwnNotDropped(s, j);
    t := Do(cfg, s, Work(j, LoadStopping));
    assert t.workers == s.workers[j := Return(None, false)];
  }

  lemma AlwaysConserved<T(!new)>(cfg: Config, s: State<T>)
    requires cfg.Valid() && Reachable(cfg, s)
    ensures Conserved(s) && |s.log.dropped| <= cfg.max - 1
  {
    hide Run, Initially, Conserved;
    var run :| Run(cfg, Initially<T>(), run) == Some(s);
    DeliveryAlways(cfg, run);
  }

  lemma {:induction false} DropRest<T(!new)>(cfg: Config, s: State<T>, j: nat, d: nat) returns (t: State<T>)
    requires cfg.Valid() && Reachable(cfg, s) && Facing(s, j, d)
    ensures Reachable(cfg, t) && Facing(t, d, d)
    decreases d - j
  {
    hide Reachable, Initially, Facing;
    if j == d {
      t := s;
    } else {
      assert j < d by { FacingBelow(s, j, d); }
      t := DropOne(cfg, s, j, d);
      t := DropRest(cfg, t, j + 1, d);
    }
  }

  lemma FacingBelow<T>(s: State<T>, j: nat, d: nat)
    requires Facing(s, j, d)
    ensures j <= d
  {
  }

  lemma NothingReceivedNothingDropped<T(!new)>(cfg: Config, s: State<T>)
    requires cfg.Valid() && cfg.min < 0 && Reachable(cfg, s)
    ensures s.log.dropped == {}
  {
    hide Run, Dead, Initially, InOrder, Owned, EnteredOnce;
    var run :| Run(cfg, Initially<T>(), run) == Some(s);
    BornDead<T>(cfg);
    DeadStays(cfg, Initially<T>(), run);
    AlwaysConserved(cfg, s);
    assert s.log.received == 0 by { FreshLedger<T>(); }
  }

  lemma FreshLedger<T>()
    ensures Initially<T>().log.received == 0 && Initially<T>().log.dropped == {}
  {
  }

  /** "Every accepted item is handled" is false, and this is by how much: a run can end with d accepted
      items dropped exactly when d <= max - 1, for every pool that has workers at all. */
  lemma DropsExactly<T(!new)>(cfg: Config, x: T, d: nat)
    requires cfg.Valid()
    ensures (exists s: State<T> :: Reachable(cfg, s) && |s.log.dropped| == d)
            <==> d == 0 || (cfg.min >= 1 && d <= cfg.max - 1)
  {
    hide Reachable, Initially;
    if d == 0 {
      Begins<T>(cfg);
      FreshLedger<T>();
      assert |Initially<T>().log.dropped| == d;
    } else if cfg.min >= 1 && d <= cfg.max - 1 {
      var t := Grow(cfg, x, cfg.max);
      t := Relax(cfg, t, cfg.max, 0);
      t := HandOut(cfg, x, t, cfg.max, d);
      t := CloseUnder(cfg, t, cfg.max, d);
      t := DropRest(cfg, t, 0, d);
    } else {
      forall s: State<T> | Reachable(cfg, s) ensures |s.log.dropped| != d {
        AlwaysConserved(cfg, s);
        if cfg.min < 0 {
          NothingReceivedNothingDropped(cfg, s);
        }
      }
    }
  }
}
