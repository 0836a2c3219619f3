/** The autoscaling worker pool (workers/worker.go) as a transition system: one step per atomic action
    of a goroutine (a load, a store, a compare-and-swap, a channel operation, the start and the end of
    a handler), interleaved in any order. */
module Pool {
  import opened Wrappers

  /** The options with which New builds a pool (worker.go:62-86): min is only tested against 0 and max, so
      it may be negative. */
  datatype Config = Config(min: int, max: int, maxLoad: real, minLoad: real, cooldown: int) {
    predicate Valid() {
      min != 0 && 1 <= max && min <= max && 0.0 < maxLoad <= 1.0 && 0.0 <= minLoad < maxLoad
    }
  }

  datatype OptionError =
    InvalidMinWorkerCount | InvalidMaxWorkerCount | InvalidMinMaxWorkerCount
    | InvalidPollingFrequency | InvalidMaxLoad | InvalidMinLoad

  datatype Outcome = Built(cfg: Config) | Rejected(error: OptionError) | Panicked

  /** What each error of New says about the options. */
  predicate Justified(o: Config, pollingFreq: int, e: OptionError) {
    match e
    case InvalidMinWorkerCount => o.min == 0
    case InvalidMaxWorkerCount => o.max == 0
    case InvalidMinMaxWorkerCount => o.min > o.max
    case InvalidPollingFrequency => pollingFreq == 0
    case InvalidMaxLoad => !(0.0 < o.maxLoad <= 1.0)
    case InvalidMinLoad => !(0.0 <= o.minLoad < o.maxLoad)
  }

  /** The order in which New looks for faults. */
  function Place(e: OptionError): nat {
    match e
    case InvalidMinWorkerCount => 0
    case InvalidMaxWorkerCount => 1
    case InvalidMinMaxWorkerCount => 2
    case InvalidPollingFrequency => 3
    case InvalidMaxLoad => 4
    case InvalidMinLoad => 5
  }

  /** New, with the default options replaced by those given. A channel of negative capacity cannot be made. */
  function New(o: Config, pollingFreq: int): (r: Outcome)
    ensures r.Built? <==> o.Valid() && pollingFreq != 0
    ensures r.Built? ==> r.cfg == o
    ensures r.Rejected? ==>
              Justified(o, pollingFreq, r.error)
              && forall e :: Justified(o, pollingFreq, e) ==> Place(r.error) <= Place(e)
    ensures r.Panicked? <==>
              o.min <= o.max < 0 && pollingFreq != 0 && 0.0 < o.maxLoad <= 1.0 && 0.0 <= o.minLoad < o.maxLoad
  {
    if o.min == 0 then Rejected(InvalidMinWorkerCount)
    else if o.max == 0 then Rejected(InvalidMaxWorkerCount)
    else if o.min > o.max then Rejected(InvalidMinMaxWorkerCount)
    else if pollingFreq == 0 then Rejected(InvalidPollingFrequency)
    else if o.maxLoad > 1.0 || o.maxLoad <= 0.0 then Rejected(InvalidMaxLoad)
    else if o.minLoad < 0.0 || o.minLoad >= o.maxLoad then Rejected(InvalidMinLoad)
    else if o.max < 0 then Panicked
    else Built(o)
  }

  datatype Error = Canceled | HandlerError(item: nat) | PoolClosed

  /** Where a worker goroutine is. Items are numbered in the order in which the channel accepted them. */
  datatype Pc =
    | Load                               // about to load activeWorkers (line 200)
    | Cas(seen: int)                     // about to compare and swap it (line 204)
    | Select                             // at the select (line 215)
    | ClosedSeen                         // found the channel closed and empty (line 222)
    | Got(item: nat)                     // received, about to load stopping (line 225)
    | Enter(item: nat)                   // about to increment busyWorkers (line 229)
    | Handling(item: nat)                // in the handler (line 230)
    | Leave(item: nat, failed: bool)     // about to decrement busyWorkers (line 231)
    | Return(err: Option<Error>, token: bool)  // the deferred decrement is pending (line 211)
    | Exit(err: Option<Error>)           // returned, not yet recorded by the errgroup
    | Gone

  /** History, not program state: the tokens there were when the autoscaler loaded activeWorkers, those
      in deflateCh and those taken by workers that were still counted. */
  datatype Backlog = Backlog(queued: nat, taken: nat)

  /** Where the autoscaler goroutine is. */
  datatype ScalerPc =
    | Absent
    | Waiting                                                     // at the select (line 148)
    | Ticked                                                      // about to load activeWorkers (line 150)
    | LoadedActive(active: int, backlog: Backlog)                   // about to load busyWorkers (line 151)
    | LoadedBusy(active: int, busy: int, backlog: Backlog)          // about to read the clock (line 157)
    | ReadTime(active: int, busy: int, now: int, backlog: Backlog)  // about to load lastScalingTime (line 158)
    | Spawning(now: int)                                          // in spawn, about to load stopping (line 192)
    | Launching(now: int)                                         // in spawn, about to start a goroutine (line 196)
    | Deflating(now: int, left: int)                              // sending tokens (line 176)
    | Storing(now: int)                                           // about to store lastScalingTime (lines 169, 182)
    | Stopped(err: Error)                                         // returned (line 185)
    | Recorded

  /** Where the goroutine that called Start is. */
  datatype StarterPc =
    | Starting                            // about to load closed (line 112)
    | StartingScaler                      // about to start the autoscaler (line 118)
    | Initial(left: int)                  // in spawn, about to load stopping (lines 120, 192)
    | InitialGo(left: int)                // in spawn, about to start a goroutine
    | Joining                             // in group.Wait (line 124)
    | Returned(err: Option<Error>)

  datatype SubmitPc<T> = Checking(data: T) | Sending(data: T) | Submitted(err: Option<Error>)

  /** History, not program state: a scale-down as it was decided, from the loaded number of workers and the
      tokens there were then. */
  datatype Down = Down(active: int, backlog: Backlog, asked: int)

  /** History: what has been accepted, received, entered, finished and dropped, which worker owns each
      item in flight, when scaling decisions were taken, the scale-downs among them and how many tokens each
      has put in deflateCh, and whether some handler failed. */
  datatype Ledger<T> = Ledger(accepted: seq<T>, received: nat, owner: map<nat, nat>, entered: seq<nat>,
                              finished: set<nat>, dropped: set<nat>,
                              decisions: seq<int>, downs: seq<Down>, sent: seq<nat>, failed: bool)

  /** The load covered the tokens still out and those the scale-down asks for. */
  predicate Covered(cfg: Config, d: Down) {
    d.active - d.backlog.queued - d.backlog.taken - d.asked >= cfg.min
  }

  predicate Careful(cfg: Config, downs: seq<Down>) {
    forall i :: 0 <= i < |downs| ==> Covered(cfg, downs[i])
  }

  /** Every scale-down was decided with deflateCh empty at the load. */
  predicate Unhurried(downs: seq<Down>) {
    forall i :: 0 <= i < |downs| ==> downs[i].backlog.queued == 0
  }

  /** Every scale-down was decided with no token out at the load, in the channel or taken. */
  predicate Drained(downs: seq<Down>) {
    forall i :: 0 <= i < |downs| ==> downs[i].backlog == Backlog(0, 0)
  }

  datatype State<T> = State(queue: seq<T>, tokens: nat, active: int, busy: int, last: int, clock: int,
                            stopping: bool, closed: bool, channelClosed: bool,
                            parentCanceled: bool, canceled: bool, firstErr: Option<Error>,
                            workers: seq<Pc>, scaler: ScalerPc, starter: StarterPc, submits: seq<SubmitPc<T>>,
                            log: Ledger<T>)

  function Initially<T>(): State<T> {
    State([], 0, 0, 0, 0, 0, false, false, false, false, false, None, [], Absent, Starting, [],
          Ledger([], 0, map[], [], {}, {}, [], [], [], false))
  }

  // ----- actions -----

  datatype ClientAction<T> =
    | BeginSubmit(data: T)
    | CheckClosed(j: nat)      // line 92
    | Send(j: nat)             // line 97
    | GiveUp(j: nat)           // line 99
    | CloseFlag                // line 105
    | CloseChannel             // line 106
    | CancelParent

  datatype StartAction = CheckStart | GoScaler | CheckStopping | GoWorker | Finish

  datatype ScalerAction =
    | Tick
    | LoadActive
    | LoadBusy
    | ReadClock(t: int)
    | LoadLast
    | CheckSpawn
    | GoSpawn
    | SendToken
    | StoreLast
    | SeeCancel
    | RecordScaler

  datatype WorkerAction =
    | LoadCount
    | TryCas
    | SeeCanceled
    | TakeToken
    | Receive
    | SeeClosed
    | StoreStopping
    | LoadStopping
    | IncBusy
    | EndHandler(fails: bool)
    | DecBusy
    | DecActive
    | Record

  datatype Action<T> =
    | Client(c: ClientAction<T>)
    | Start(s: StartAction)
    | Scale(a: ScalerAction)
    | Work(i: nat, w: WorkerAction)

  // ----- clients -----

  predicate ClientEnabled<T>(cfg: Config, s: State<T>, a: ClientAction<T>) {
    match a
    case BeginSubmit(_) => true
    case CheckClosed(j) => j < |s.submits| && s.submits[j].Checking?
    case Send(j) => j < |s.submits| && s.submits[j].Sending? && |s.queue| < cfg.max && !s.channelClosed
    case GiveUp(j) => j < |s.submits| && s.submits[j].Sending?
    case CloseFlag => !s.closed
    case CloseChannel => s.closed && !s.channelClosed
    case CancelParent => true
  }

  function ClientNext<T>(cfg: Config, s: State<T>, a: ClientAction<T>): State<T>
    requires ClientEnabled(cfg, s, a)
  {
    match a
    case BeginSubmit(data) => s.(submits := s.submits + [Checking(data)])
    case CheckClosed(j) =>
      s.(submits := s.submits[j := if s.closed then Submitted(Some(PoolClosed)) else Sending(s.submits[j].data)])
    case Send(j) =>
      var d := s.submits[j].data;
      s.(submits := s.submits[j := Submitted(None)], queue := s.queue + [d],
         log := s.log.(accepted := s.log.accepted + [d]))
    case GiveUp(j) => s.(submits := s.submits[j := Submitted(Some(Canceled))])
    case CloseFlag => s.(closed := true)
    case CloseChannel => s.(channelClosed := true)
    case CancelParent => s.(parentCanceled := true, canceled := true)
  }

  // ----- Start -----

  predicate StartEnabled<T>(s: State<T>, a: StartAction) {
    match a
    case CheckStart => s.starter == Starting
    case GoScaler => s.starter == StartingScaler && s.scaler == Absent
    case CheckStopping => s.starter.Initial?
    case GoWorker => s.starter.InitialGo?
    case Finish =>
      s.starter == Joining && s.scaler == Recorded && forall i :: 0 <= i < |s.workers| ==> s.workers[i] == Gone
  }

  function StartNext<T>(cfg: Config, s: State<T>, a: StartAction): State<T>
    requires StartEnabled(s, a)
  {
    match a
    case CheckStart => s.(starter := if s.closed then Returned(Some(PoolClosed)) else StartingScaler)
    case GoScaler => s.(scaler := Waiting, starter := Initial(cfg.min))
    case CheckStopping =>
      var left := s.starter.left;
      s.(starter := if left <= 0 then Joining else if s.stopping then Initial(left - 1) else InitialGo(left))
    case GoWorker => s.(workers := s.workers + [Load], starter := Initial(s.starter.left - 1))
    case Finish => s.(starter := Returned(s.firstErr))
  }

  // ----- the autoscaler -----

  /** How many tokens a scale-down sends (line 175). */
  function Removal(active: int, min: int): int {
    var excess, half := active - min, if active / 2 > 1 then active / 2 else 1;
    if excess < half then excess else half
  }

  predicate ScalerEnabled<T>(s: State<T>, a: ScalerAction) {
    match a
    case Tick => s.scaler == Waiting
    case LoadActive => s.scaler == Ticked
    case LoadBusy => s.scaler.LoadedActive?
    case ReadClock(t) => s.scaler.LoadedBusy? && s.clock <= t
    case LoadLast => s.scaler.ReadTime? && s.scaler.active != 0
    case CheckSpawn => s.scaler.Spawning?
    case GoSpawn => s.scaler.Launching?
    case SendToken => s.scaler.Deflating?
    case StoreLast => s.scaler.Storing?
    case SeeCancel => s.scaler == Waiting && s.canceled
    case RecordScaler => s.scaler.Stopped?
  }

  /** The tests of lines 161-175, once everything has been read. */
  function Decide(cfg: Config, active: int, busy: int, now: int, last: int): (r: ScalerPc)
    requires active != 0
    ensures r == Waiting || (now - last >= cfg.cooldown &&
              (r == Spawning(now) || (r == Deflating(now, Removal(active, cfg.min)) && active > cfg.min)))
  {
    var ratio := busy as real / active as real;
    if now - last < cfg.cooldown then Waiting
    else if ratio >= cfg.maxLoad && active < cfg.max then Spawning(now)
    else if active > cfg.min && ratio < cfg.minLoad then Deflating(now, Removal(active, cfg.min))
    else Waiting
  }

  lemma Quotient(busy: int, active: int, load: real)
    requires active > 0
    ensures busy as real / active as real >= load <==> busy as real >= load * active as real
  {
    var a, q := active as real, busy as real / active as real;
    assert q * a == busy as real;
    if q >= load {
      assert (q - load) * a >= 0.0;
    } else {
      assert (load - q) * a > 0.0;
    }
  }

  /** When each decision is taken, without a quotient: the two loads never ask for both. */
  lemma DecideMeans(cfg: Config, active: int, busy: int, now: int, last: int)
    requires cfg.Valid() && active > 0
    ensures var r, cooled := Decide(cfg, active, busy, now, last), now - last >= cfg.cooldown;
            && (r.Spawning? <==> cooled && busy as real >= cfg.maxLoad * active as real && active < cfg.max)
            && (r.Deflating? <==> cooled && busy as real < cfg.minLoad * active as real && active > cfg.min)
  {
    hide Removal;
    Quotient(busy, active, cfg.maxLoad);
    Quotient(busy, active, cfg.minLoad);
  }

  /** Where the autoscaler is after its step. */
  function ScalerMove<T>(cfg: Config, s: State<T>, a: ScalerAction): ScalerPc
    requires ScalerEnabled(s, a)
  {
    var pc := s.scaler;
    match a
    case Tick => Ticked
    case LoadActive => LoadedActive(s.active, Backlog(s.tokens, Tally(s.workers, Deflated)))
    case LoadBusy => if pc.active == 0 then Waiting else LoadedBusy(pc.active, s.busy, pc.backlog)
    case ReadClock(t) => ReadTime(pc.active, pc.busy, t, pc.backlog)
    case LoadLast => Decide(cfg, pc.active, pc.busy, pc.now, s.last)
    case CheckSpawn => if s.stopping then Storing(pc.now) else Launching(pc.now)
    case GoSpawn => Storing(pc.now)
    case SendToken => if pc.left <= 0 then Storing(pc.now) else Deflating(pc.now, pc.left - 1)
    case StoreLast => Waiting
    case SeeCancel => Stopped(Canceled)
    case RecordScaler => Recorded
  }

  /** The history after a decision, if there was one. */
  function Decided<T>(log: Ledger<T>, active: int, now: int, next: ScalerPc, backlog: Backlog): Ledger<T> {
    if next == Waiting then log
    else if next.Deflating? then
      log.(decisions := log.decisions + [now], downs := log.downs + [Down(active, backlog, next.left)],
           sent := log.sent + [0])
    else log.(decisions := log.decisions + [now])
  }

  /** One more token sent by the last scale-down. */
  function Credit(sent: seq<nat>): (r: seq<nat>)
    ensures |r| == |sent|
  {
    var n := |sent| - 1;
    if sent == [] then sent else sent[n := sent[n] + 1]
  }

  function ScalerNext<T>(cfg: Config, s: State<T>, a: ScalerAction): State<T>
    requires ScalerEnabled(s, a)
  {
    var pc, next := s.scaler, ScalerMove(cfg, s, a);
    match a
    case ReadClock(t) => s.(scaler := next, clock := t)
    case LoadLast => s.(scaler := next, log := Decided(s.log, pc.active, pc.now, next, pc.backlog))
    case GoSpawn => s.(scaler := next, workers := s.workers + [Load])
    case SendToken =>
      if pc.left > 0 && s.tokens < cfg.max then
        s.(scaler := next, tokens := s.tokens + 1, log := s.log.(sent := Credit(s.log.sent)))
      else s.(scaler := next)
    case StoreLast => s.(scaler := next, last := pc.now)
    case RecordScaler => RecordError(s.(scaler := next), Some(pc.err))
    case _ => s.(scaler := next)
  }

  /** What the errgroup does when a goroutine returns: it keeps the first error and cancels. */
  function RecordError<T>(s: State<T>, err: Option<Error>): State<T> {
    if err.None? then s
    else s.(firstErr := if s.firstErr.Some? then s.firstErr else err, canceled := true)
  }

  // ----- workers -----

  predicate WorkerEnabled<T>(cfg: Config, s: State<T>, i: nat, a: WorkerAction) {
    i < |s.workers| &&
    var pc := s.workers[i];
    match a
    case LoadCount => pc == Load
    case TryCas => pc.Cas?
    case SeeCanceled => pc == Select && s.canceled
    case TakeToken => pc == Select && s.tokens > 0
    case Receive => pc == Select && |s.queue| > 0
    case SeeClosed => pc == Select && s.channelClosed && |s.queue| == 0
    case StoreStopping => pc == ClosedSeen
    case LoadStopping => pc.Got?
    case IncBusy => pc.Enter?
    case EndHandler(_) => pc.Handling?
    case DecBusy => pc.Leave?
    case DecActive => pc.Return?
    case Record => pc.Exit?
  }

  /** Where the worker is after its step. */
  function WorkerPc<T>(cfg: Config, s: State<T>, i: nat, a: WorkerAction): Pc
    requires WorkerEnabled(cfg, s, i, a)
  {
    var pc := s.workers[i];
    match a
    case LoadCount => if s.active >= cfg.max then Exit(None) else Cas(s.active)
    case TryCas => if s.active == pc.seen then Select else Load
    case SeeCanceled => Return(Some(Canceled), false)
    case TakeToken => Return(None, true)
    case Receive => Got(s.log.received)
    case SeeClosed => ClosedSeen
    case StoreStopping => Return(None, false)
    case LoadStopping => if s.stopping then Return(None, false) else Enter(pc.item)
    case IncBusy => Handling(pc.item)
    case EndHandler(fails) => Leave(pc.item, fails)
    case DecBusy => if pc.failed then Return(Some(HandlerError(pc.item)), false) else Select
    case DecActive => Exit(pc.err)
    case Record => Gone
  }

  function WorkerNext<T>(cfg: Config, s: State<T>, i: nat, a: WorkerAction): State<T>
    requires WorkerEnabled(cfg, s, i, a)
  {
    var pc, ws := s.workers[i], s.workers[i := WorkerPc(cfg, s, i, a)];
    match a
    case TryCas => s.(workers := ws, active := if s.active == pc.seen then s.active + 1 else s.active)
    case TakeToken => s.(workers := ws, tokens := s.tokens - 1)
    case Receive =>
      var k := s.log.received;
      s.(workers := ws, queue := s.queue[1..], log := s.log.(received := k + 1, owner := s.log.owner[k := i]))
    case StoreStopping => s.(workers := ws, stopping := true)
    case LoadStopping =>
      if s.stopping then
        s.(workers := ws, log := s.log.(owner := s.log.owner - {pc.item}, dropped := s.log.dropped + {pc.item}))
      else s.(workers := ws)
    case IncBusy => s.(workers := ws, busy := s.busy + 1, log := s.log.(entered := s.log.entered + [pc.item]))
    case EndHandler(fails) => s.(workers := ws, log := s.log.(failed := s.log.failed || fails))
    case DecBusy =>
      s.(workers := ws, busy := s.busy - 1,
         log := s.log.(owner := s.log.owner - {pc.item}, finished := s.log.finished + {pc.item}))
    case DecActive => s.(workers := ws, active := s.active - 1)
    case Record => RecordError(s.(workers := ws), pc.err)
    case _ => s.(workers := ws)
  }

  // ----- what a step leaves alone -----

  /** The autoscaler's own variables and history. */
  ghost predicate ScalerUntouched<T>(s: State<T>, t: State<T>) {
    && t.scaler == s.scaler && t.last == s.last && t.clock == s.clock
    && t.log.decisions == s.log.decisions && t.log.downs == s.log.downs && t.log.sent == s.log.sent
  }

  lemma ClientLeaves<T>(cfg: Config, s: State<T>, a: ClientAction<T>)
    requires ClientEnabled(cfg, s, a)
    ensures var t := ClientNext(cfg, s, a);
            ScalerUntouched(s, t) && t.tokens == s.tokens && t.workers == s.workers && t.firstErr == s.firstErr
  {
    match a
    case Send(_) =>
    case _ =>
  }

  /** What the autoscaler does to its own variables and history. */
  lemma ScaleRecords<T>(cfg: Config, s: State<T>, a: ScalerAction)
    requires ScalerEnabled(s, a)
    ensures var next, t := ScalerMove(cfg, s, a), ScalerNext(cfg, s, a);
            && t.scaler == next
            && t.last == (if a.StoreLast? then s.scaler.now else s.last)
            && t.log.decisions ==
               (if a.LoadLast? && next != Waiting then s.log.decisions + [s.scaler.now] else s.log.decisions)
            && (!a.LoadLast? ==> t.log.downs == s.log.downs)
  {
    hide ScalerMove, Credit, Tally;
    match a
    case LoadLast =>
    case SendToken =>
    case RecordScaler =>
    case GoSpawn =>
    case _ =>
  }

  /** Clients, Start, the queue and deliveries are none of the autoscaler's business. */
  ghost predicate OthersUntouched<T>(s: State<T>, t: State<T>) {
    && t == s.(scaler := t.scaler, clock := t.clock, last := t.last, tokens := t.tokens, workers := t.workers,
               firstErr := t.firstErr, canceled := t.canceled, log := t.log)
    && t.log == s.log.(decisions := t.log.decisions, downs := t.log.downs, sent := t.log.sent)
  }

  lemma LoadLastLeaves<T>(cfg: Config, s: State<T>)
    requires ScalerEnabled(s, LoadLast)
    ensures OthersUntouched(s, ScalerNext(cfg, s, LoadLast))
  {
    hide ScalerMove;
  }

  lemma SendTokenLeaves<T>(cfg: Config, s: State<T>)
    requires ScalerEnabled(s, SendToken)
    ensures OthersUntouched(s, ScalerNext(cfg, s, SendToken))
  {
    hide ScalerMove, Credit;
  }

  lemma ScaleLeaves<T>(cfg: Config, s: State<T>, a: ScalerAction)
    requires ScalerEnabled(s, a)
    ensures OthersUntouched(s, ScalerNext(cfg, s, a))
  {
    hide ScalerMove, Credit, Tally, Decided;
    match a
    case LoadLast => LoadLastLeaves(cfg, s);
    case SendToken => SendTokenLeaves(cfg, s);
    case RecordScaler =>
    case GoSpawn =>
    case ReadClock(_) =>
    case StoreLast =>
    case _ =>
  }

  lemma ScaleEffects<T>(cfg: Config, s: State<T>, a: ScalerAction)
    requires ScalerEnabled(s, a)
    ensures var t := ScalerNext(cfg, s, a);
            && t.workers == (if a.GoSpawn? then s.workers + [Load] else s.workers)
            && t.tokens == (if a.SendToken? && s.scaler.left > 0 && s.tokens < cfg.max then s.tokens + 1 else s.tokens)
            && t.canceled == (s.canceled || a.RecordScaler?)
            && t.firstErr == (if a.RecordScaler? && s.firstErr.None? then Some(s.scaler.err) else s.firstErr)
  {
    hide ScalerMove, Credit, Tally;
    match a
    case LoadLast =>
    case SendToken =>
    case RecordScaler =>
    case GoSpawn =>
    case _ =>
  }

  lemma WorkLeaves<T>(cfg: Config, s: State<T>, i: nat, w: WorkerAction)
    requires WorkerEnabled(cfg, s, i, w)
    ensures var t := WorkerNext(cfg, s, i, w);
            && ScalerUntouched(s, t) && t.workers == s.workers[i := WorkerPc(cfg, s, i, w)] && t.starter == s.starter
            && t.tokens == (if w.TakeToken? then s.tokens - 1 else s.tokens)
            && (!w.TryCas? && !w.DecActive? ==> t.active == s.active)
            && (s.canceled ==> t.canceled) && (s.log.failed ==> t.log.failed) && t.closed == s.closed
            && s.log.finished <= t.log.finished
  {
    hide WorkerPc, WorkerEnabled;
    match w
    case Record =>
    case DecBusy =>
    case EndHandler(_) =>
    case Receive =>
    case LoadStopping =>
    case IncBusy =>
    case _ =>
  }

  lemma WorkOnly<T>(cfg: Config, s: State<T>, i: nat, w: WorkerAction)
    requires WorkerEnabled(cfg, s, i, w)
    ensures var t := WorkerNext(cfg, s, i, w);
            && t.submits == s.submits && t.closed == s.closed && t.channelClosed == s.channelClosed
            && (s.stopping ==> t.stopping) && |t.queue| <= |s.queue|
            && (s.firstErr.Some? ==> t.firstErr == s.firstErr)
            && (w.Record? && s.workers[i].err.Some? ==> t.canceled && t.firstErr.Some?)
            && t.log.failed == (s.log.failed || (w.EndHandler? && w.fails))
  {
    hide WorkerPc;
    match w
    case Record =>
    case DecBusy =>
    case EndHandler(_) =>
    case Receive =>
    case LoadStopping =>
    case IncBusy =>
    case StoreStopping =>
    case _ =>
  }

  // ----- runs -----

  predicate Enabled<T>(cfg: Config, s: State<T>, a: Action<T>) {
    match a
    case Client(c) => ClientEnabled(cfg, s, c)
    case Start(b) => StartEnabled(s, b)
    case Scale(b) => ScalerEnabled(s, b)
    case Work(i, w) => WorkerEnabled(cfg, s, i, w)
  }

  function Next<T>(cfg: Config, s: State<T>, a: Action<T>): State<T>
    requires Enabled(cfg, s, a)
  {
    match a
    case Client(c) => ClientNext(cfg, s, c)
    case Start(b) => StartNext(cfg, s, b)
    case Scale(b) => ScalerNext(cfg, s, b)
    case Work(i, w) => WorkerNext(cfg, s, i, w)
  }

  /** The state after a run, or nothing when some step was not possible. */
  function Run<T>(cfg: Config, s: State<T>, run: seq<Action<T>>): Option<State<T>>
    decreases |run|
  {
    if run == [] then Some(s)
    else if Enabled(cfg, s, run[0]) then Run(cfg, Next(cfg, s, run[0]), run[1..])
    else None
  }

  // ----- counting goroutines -----

  datatype Class = Counted | InBracket | Launched | Undecided | SawClosed | Deflated

  /** Counted: between the successful CAS and the deferred decrement. InBracket: between the two updates
      of busyWorkers. Launched: started, not yet counted. Undecided: received an item, has not looked at
      stopping. SawClosed: found the channel closed. Deflated: took a token, not yet uncounted. */
  predicate Is(c: Class, pc: Pc) {
    match c
    case Counted => !(pc.Load? || pc.Cas? || pc.Exit? || pc.Gone?)
    case InBracket => pc.Handling? || pc.Leave?
    case Launched => pc.Load? || pc.Cas?
    case Undecided => pc.Got?
    case SawClosed => pc.ClosedSeen?
    case Deflated => pc.Return? && pc.token
  }

  function One(c: Class, pc: Pc): nat {
    if Is(c, pc) then 1 else 0
  }

  function Tally(ws: seq<Pc>, c: Class): nat {
    if |ws| == 0 then 0 else Tally(ws[..|ws| - 1], c) + One(c, ws[|ws| - 1])
  }

  /** Tokens in the channel plus tokens taken by workers that are still counted. */
  function Outstanding<T>(s: State<T>): nat {
    s.tokens + Tally(s.workers, Deflated)
  }

  lemma {:induction false} TallyUpdate(ws: seq<Pc>, i: nat, pc: Pc, c: Class)
    requires i < |ws|
    ensures Tally(ws[i := pc], c) == Tally(ws, c) - One(c, ws[i]) + One(c, pc)
    ensures Tally(ws, c) >= One(c, ws[i])
  {
    var n := |ws| - 1;
    if i < n {
      TallyUpdate(ws[..n], i, pc, c);
      assert ws[i := pc][..n] == ws[..n][i := pc];
    } else {
      assert ws[i := pc][..n] == ws[..n];
    }
  }

  lemma TallyAppend(ws: seq<Pc>, pc: Pc, c: Class)
    ensures Tally(ws + [pc], c) == Tally(ws, c) + One(c, pc)
  {
    assert (ws + [pc])[..|ws|] == ws;
  }

  lemma {:induction false} TallyNone(ws: seq<Pc>, c: Class)
    ensures Tally(ws, c) == 0 <==> forall i :: 0 <= i < |ws| ==> !Is(c, ws[i])
  {
    if |ws| > 0 {
      TallyNone(ws[..|ws| - 1], c);
    }
  }

  lemma {:induction false} TallyTwo(ws: seq<Pc>, c: Class, d: Class)
    requires forall pc :: !(Is(c, pc) && Is(d, pc))
    requires forall pc :: Is(c, pc) || Is(d, pc) ==> Is(Counted, pc)
    ensures Tally(ws, c) + Tally(ws, d) <= Tally(ws, Counted)
  {
    if |ws| > 0 {
      TallyTwo(ws[..|ws| - 1], c, d);
    }
  }
}
