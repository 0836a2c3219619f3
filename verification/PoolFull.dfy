/** Scale-downs that find deflateCh full: exactly when they can happen. */
module PoolFull {
  import opened Pool
  import opened PoolFloor
  import opened PoolReach
  import opened PoolLimits

  /** min + 1 idle workers, none of which has taken any of the k tokens in deflateCh. */
  ghost predicate Heaped<T>(cfg: Config, s: State<T>, k: nat) {
    Undisturbed(s) && s.scaler == Waiting && s.active == cfg.min + 1 && s.busy == 0 && s.tokens == k
  }

  lemma HeapOne<T(!new)>(cfg: Config, s: State<T>, k: nat) returns (t: State<T>)
    requires cfg.Valid() && cfg.min >= 1 && 0.0 < cfg.minLoad && Reachable(cfg, s) && Heaped(cfg, s, k) && k < cfg.max
    ensures Reachable(cfg, t) && Heaped(cfg, t, k + 1)
  {
    hide Reachable, Initially, ClientNext, ClientEnabled, StartNext, StartEnabled, WorkerNext, WorkerEnabled, Tally,
      Credit;
    t := AskOne(cfg, s);
    t := Do(cfg, t, Scale(SendToken));
    t := Do(cfg, t, Scale(SendToken));
    t := Do(cfg, t, Scale(StoreLast));
  }

  lemma {:induction false} Heap<T(!new)>(cfg: Config, s: State<T>, k: nat) returns (t: State<T>)
    requires cfg.Valid() && cfg.min >= 1 && 0.0 < cfg.minLoad && Reachable(cfg, s) && Heaped(cfg, s, k) && k <= cfg.max
    ensures Reachable(cfg, t) && Heaped(cfg, t, cfg.max)
    decreases cfg.max - k
  {
    hide Reachable, Initially, Heaped;
    if k == cfg.max {
      t := s;
    } else {
      t := HeapOne(cfg, s, k);
      t := Heap(cfg, t, k + 1);
    }
  }

  /** The autoscaler is about to send a token and deflateCh is full: the default branch of the select. */
  predicate FindsFull<T>(cfg: Config, s: State<T>) {
    s.scaler.Deflating? && s.scaler.left > 0 && s.tokens == cfg.max
  }

  /** The last scale-down is over and has sent nothing. */
  predicate SentNothing<T>(s: State<T>) {
    |s.log.sent| > 0 && s.log.sent[|s.log.sent| - 1] == 0 && !s.scaler.Deflating?
  }

  /** If nobody takes the tokens, deflateCh fills up, and the next scale-down sends nothing at all. */
  lemma SendsNothing<T(!new)>(cfg: Config, x: T) returns (full: State<T>, t: State<T>)
    requires cfg.Valid() && 1 <= cfg.min < cfg.max && 0.0 < cfg.minLoad
    ensures Reachable(cfg, full) && Undisturbed(full) && FindsFull(cfg, full)
    ensures Reachable(cfg, t) && Undisturbed(t) && SentNothing(t)
  {
    hide Reachable, Initially, ClientNext, ClientEnabled, StartNext, StartEnabled, WorkerNext, WorkerEnabled, Tally;
    t := Grow(cfg, x, 2);
    t := Relax(cfg, t, 2, 0);
    t := HireRest(cfg, t, 2);
    t := Heap(cfg, t, 0);
    full := AskOne(cfg, t);
    t := Do(cfg, full, Scale(SendToken));
    t := Do(cfg, t, Scale(SendToken));
  }

  ghost predicate CanFindFull<T(!new)>(cfg: Config) {
    exists s: State<T> :: Reachable(cfg, s) && Undisturbed(s) && FindsFull(cfg, s)
  }

  ghost predicate CanSendNothing<T(!new)>(cfg: Config) {
    exists s: State<T> :: Reachable(cfg, s) && Undisturbed(s) && SentNothing(s)
  }

  /** "A scale-down emits at least one token" is false, exactly for the options that scale down at all. */
  lemma SendsNothingExactly<T(!new)>(cfg: Config, x: T)
    requires cfg.Valid()
    ensures CanFindFull<T>(cfg) <==> !NeverShrinks(cfg)
    ensures CanSendNothing<T>(cfg) <==> !NeverShrinks(cfg)
  {
    hide Reachable, Undisturbed;
    if NeverShrinks(cfg) {
      forall s: State<T> | Reachable(cfg, s)
        ensures !FindsFull(cfg, s) && !SentNothing(s)
      {
        NeverShrunk(cfg, s);
      }
    } else {
      var full, t := SendsNothing(cfg, x);
    }
  }
}
