/** How many tokens a scale-down really sends: deflateCh may be full, and then a token is dropped. */
module PoolTokens {
  import opened Wrappers
  import opened Pool
  import opened PoolSafety
  import opened PoolShutdown
  import opened PoolScaling

  function Least(a: int, b: int): int {
    if a < b then a else b
  }

  /** A scale-down that has sent n tokens and has `left` to try: only a full deflateCh can lose some. */
  predicate Wave(cfg: Config, d: Down, n: nat, left: int) {
    && cfg.min < d.active <= cfg.max && d.asked == Removal(d.active, cfg.min)
    && 0 <= left <= d.asked && Least(d.asked - left, cfg.max - d.backlog.queued) <= n <= d.asked - left
  }

  function Left<T>(s: State<T>): int {
    if s.scaler.Deflating? then s.scaler.left else 0
  }

  ghost predicate Waves<T>(cfg: Config, s: State<T>) {
    && |s.log.sent| == |s.log.downs|
    && forall i :: 0 <= i < |s.log.downs| ==>
         Wave(cfg, s.log.downs[i], s.log.sent[i], if i == |s.log.downs| - 1 then Left(s) else 0)
  }

  /** Tokens in deflateCh were there at the load or sent since. */
  ghost predicate Room<T>(cfg: Config, s: State<T>) {
    && (s.scaler.LoadedActive? || s.scaler.LoadedBusy? || s.scaler.ReadTime? ==>
          s.scaler.active <= cfg.max && s.tokens <= s.scaler.backlog.queued)
    && (s.scaler.LoadedBusy? || s.scaler.ReadTime? ==> s.scaler.active != 0)
    && (s.scaler.Deflating? ==>
          var n := |s.log.downs| - 1;
          n >= 0 && n < |s.log.sent| && s.tokens <= s.log.downs[n].backlog.queued + s.log.sent[n])
  }

  ghost predicate Accounted<T>(cfg: Config, s: State<T>) {
    Waves(cfg, s) && Room(cfg, s)
  }

  /** Steps that decide nothing and send nothing. */
  lemma AccountedOther<T>(cfg: Config, s: State<T>, t: State<T>)
    requires Accounted(cfg, s) && t.scaler == s.scaler && t.tokens <= s.tokens
    requires t.log.downs == s.log.downs && t.log.sent == s.log.sent
    ensures Accounted(cfg, t)
  {
    hide Wave;
  }

  lemma AccountedClient<T>(cfg: Config, s: State<T>, a: ClientAction<T>)
    requires Accounted(cfg, s) && ClientEnabled(cfg, s, a)
    ensures Accounted(cfg, ClientNext(cfg, s, a))
  {
    hide Accounted, ClientNext, ClientEnabled;
    ClientLeaves(cfg, s, a);
    AccountedOther(cfg, s, ClientNext(cfg, s, a));
  }

  lemma AccountedStart<T>(cfg: Config, s: State<T>, a: StartAction)
    requires Accounted(cfg, s) && StartEnabled(s, a)
    ensures Accounted(cfg, StartNext(cfg, s, a))
  {
    hide Wave;
  }

  lemma AccountedWork<T>(cfg: Config, s: State<T>, i: nat, w: WorkerAction)
    requires Accounted(cfg, s) && WorkerEnabled(cfg, s, i, w)
    ensures Accounted(cfg, WorkerNext(cfg, s, i, w))
  {
    hide Accounted, WorkerNext, WorkerEnabled;
    WorkLeaves(cfg, s, i, w);
    AccountedOther(cfg, s, WorkerNext(cfg, s, i, w));
  }

  lemma AccountedDecide<T>(cfg: Config, s: State<T>)
    requires Accounted(cfg, s) && ScalerEnabled(s, LoadLast)
    ensures Accounted(cfg, ScalerNext(cfg, s, LoadLast))
  {
    hide Decide, Tally;
  }

  lemma WaveStep(cfg: Config, d: Down, n: nat, left: int, tokens: nat)
    requires Wave(cfg, d, n, left) && tokens <= d.backlog.queued + n
    ensures left > 0 && tokens < cfg.max ==> Wave(cfg, d, n + 1, left - 1)
    ensures left > 0 && tokens >= cfg.max ==> Wave(cfg, d, n, left - 1)
    ensures left <= 0 ==> Wave(cfg, d, n, 0)
  {
    hide Removal;
  }

  /** One turn of the sending loop, after which the current scale-down has sent n tokens. */
  lemma AccountedTurn<T>(cfg: Config, s: State<T>, t: State<T>, n: nat)
    requires Accounted(cfg, s) && s.scaler.Deflating? && (t.scaler.Deflating? || t.scaler.Storing?)
    requires var k := |s.log.downs| - 1;
             && t.log.downs == s.log.downs && t.log.sent == s.log.sent[k := n]
             && Wave(cfg, s.log.downs[k], n, Left(t)) && t.tokens <= s.log.downs[k].backlog.queued + n
    ensures Accounted(cfg, t)
  {
    hide Wave;
    forall i | 0 <= i < |s.log.downs| - 1
      ensures Wave(cfg, t.log.downs[i], t.log.sent[i], 0)
    {
      assert Wave(cfg, s.log.downs[i], s.log.sent[i], 0);
    }
  }

  lemma AccountedSend<T>(cfg: Config, s: State<T>)
    requires Accounted(cfg, s) && ScalerEnabled(s, SendToken)
    ensures Accounted(cfg, ScalerNext(cfg, s, SendToken))
  {
    hide Wave;
    var k, t := |s.log.downs| - 1, ScalerNext(cfg, s, SendToken);
    var n := s.log.sent[k];
    assert Wave(cfg, s.log.downs[k], n, s.scaler.left);
    WaveStep(cfg, s.log.downs[k], n, s.scaler.left, s.tokens);
    AccountedTurn(cfg, s, t, t.log.sent[k]);
  }

  lemma AccountedScale<T>(cfg: Config, s: State<T>, a: ScalerAction)
    requires Accounted(cfg, s) && CountersExact(cfg, s) && ScalerEnabled(s, a) && !a.LoadLast? && !a.SendToken?
    ensures Accounted(cfg, ScalerNext(cfg, s, a))
  {
    hide Wave, Tally;
  }

  lemma AccountedStep<T>(cfg: Config, s: State<T>, a: Action<T>)
    requires Accounted(cfg, s) && CountersExact(cfg, s) && Enabled(cfg, s, a)
    ensures Accounted(cfg, Next(cfg, s, a))
  {
    hide Accounted, CountersExact, ClientNext, StartNext, ScalerNext, WorkerNext, ClientEnabled, StartEnabled,
      ScalerEnabled, WorkerEnabled;
    match a
    case Client(b) => AccountedClient(cfg, s, b);
    case Start(b) => AccountedStart(cfg, s, b);
    case Scale(b) =>
      if b.LoadLast? {
        AccountedDecide(cfg, s);
      } else if b.SendToken? {
        AccountedSend(cfg, s);
      } else {
        AccountedScale(cfg, s, b);
      }
    case Work(i, w) => AccountedWork(cfg, s, i, w);
  }

  lemma {:induction false} AccountedRun<T>(cfg: Config, s: State<T>, run: seq<Action<T>>)
    requires Accounted(cfg, s) && Safe(cfg, s)
    ensures Run(cfg, s, run).Some? ==> Accounted(cfg, Run(cfg, s, run).value)
    decreases |run|
  {
    hide Next, Enabled, Accounted, CountersExact, Conserved, DropsBounded, ErrorsTraced, SubmitsExact;
    if run != [] && Enabled(cfg, s, run[0]) {
      AccountedStep(cfg, s, run[0]);
      SafeStep(cfg, s, run[0]);
      AccountedRun(cfg, Next(cfg, s, run[0]), run[1..]);
    }
  }

  lemma StartsAccounted<T>(cfg: Config)
    ensures Accounted<T>(cfg, Initially())
  {
  }

  /** The tokens of every scale-down, in every run. It is decided on more than min workers, asks for between 1
      and all of the surplus, and never sends more than it asks for. Once finished, it has sent all of them
      or as many as deflateCh had room for at the load; so all of them if they fitted, and in particular if the
      load covered the tokens still out. */
  lemma EmitsAlways<T>(cfg: Config, run: seq<Action<T>>, i: nat)
    requires cfg.Valid() && Run(cfg, Initially<T>(), run).Some?
    requires i < |Run(cfg, Initially<T>(), run).value.log.downs|
    ensures var s := Run(cfg, Initially<T>(), run).value;
            && |s.log.sent| == |s.log.downs|
            && var d, n := s.log.downs[i], s.log.sent[i];
            && d.active > cfg.min && 1 <= d.asked == Removal(d.active, cfg.min) <= d.active - cfg.min && n <= d.asked
            && (i < |s.log.downs| - 1 || !s.scaler.Deflating? ==>
                  && n >= Least(d.asked, cfg.max - d.backlog.queued)
                  && (d.asked + d.backlog.queued <= cfg.max ==> n == d.asked)
                  && (cfg.min >= 1 && Covered(cfg, d) ==> n == d.asked))
  {
    hide Run, Initially, Safe, Room, Removal;
    SafeInitially<T>(cfg);
    StartsAccounted<T>(cfg);
    AccountedRun(cfg, Initially<T>(), run);
    var s := Run(cfg, Initially<T>(), run).value;
    assert Wave(cfg, s.log.downs[i], s.log.sent[i], if i == |s.log.downs| - 1 then Left(s) else 0);
    RemovalBounds(s.log.downs[i].active, cfg.min);
  }
}
