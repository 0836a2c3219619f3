/** What every step of the pool keeps, in every interleaving: exact counters, exactly-once delivery, and
    when items can be dropped. */
module PoolSafety {
  import opened Wrappers
  import opened Pool

  // ----- counters -----

  ghost predicate CountersExact<T>(cfg: Config, s: State<T>) {
    && s.active == Tally(s.workers, Counted) <= cfg.max
    && s.busy == Tally(s.workers, InBracket)
    && forall i :: 0 <= i < |s.workers| && s.workers[i].Cas? ==> s.workers[i].seen < cfg.max
  }

  lemma {:induction false} BracketIsCounted(ws: seq<Pc>)
    ensures Tally(ws, InBracket) <= Tally(ws, Counted)
  {
    if |ws| > 0 {
      BracketIsCounted(ws[..|ws| - 1]);
    }
  }

  lemma CountersClient<T>(cfg: Config, s: State<T>, a: ClientAction<T>)
    requires CountersExact(cfg, s) && ClientEnabled(cfg, s, a)
    ensures CountersExact(cfg, ClientNext(cfg, s, a))
  {
    hide Tally;
  }

  lemma CountersStart<T>(cfg: Config, s: State<T>, a: StartAction)
    requires CountersExact(cfg, s) && StartEnabled(s, a)
    ensures CountersExact(cfg, StartNext(cfg, s, a))
  {
    hide Tally;
    TallyAppend(s.workers, Load, Counted);
    TallyAppend(s.workers, Load, InBracket);
  }

  lemma CountersScale<T>(cfg: Config, s: State<T>, a: ScalerAction)
    requires CountersExact(cfg, s) && ScalerEnabled(s, a)
    ensures CountersExact(cfg, ScalerNext(cfg, s, a))
  {
    hide Tally, ScalerNext, ScalerEnabled;
    ScaleLeaves(cfg, s, a);
    ScaleEffects(cfg, s, a);
    TallyAppend(s.workers, Load, Counted);
    TallyAppend(s.workers, Load, InBracket);
  }

  lemma CountersWork<T>(cfg: Config, s: State<T>, i: nat, w: WorkerAction)
    requires CountersExact(cfg, s) && WorkerEnabled(cfg, s, i, w)
    ensures CountersExact(cfg, WorkerNext(cfg, s, i, w))
  {
    hide Tally;
    var pc := WorkerNext(cfg, s, i, w).workers[i];
    TallyUpdate(s.workers, i, pc, Counted);
    TallyUpdate(s.workers, i, pc, InBracket);
  }

  /** Both counters keep counting exactly the goroutines in their brackets; racing CAS loops never
      push active above max. */
  lemma CountersStep<T>(cfg: Config, s: State<T>, a: Action<T>)
    requires CountersExact(cfg, s) && Enabled(cfg, s, a)
    ensures CountersExact(cfg, Next(cfg, s, a))
  {
    hide CountersExact, ClientNext, StartNext, ScalerNext, WorkerNext, ClientEnabled, StartEnabled, ScalerEnabled,
      WorkerEnabled;
    match a
    case Client(b) => CountersClient(cfg, s, b);
    case Start(b) => CountersStart(cfg, s, b);
    case Scale(b) => CountersScale(cfg, s, b);
    case Work(i, w) => CountersWork(cfg, s, i, w);
  }

  // ----- items -----

  function ItemOf(pc: Pc): Option<nat> {
    if pc.Got? || pc.Enter? || pc.Handling? || pc.Leave? then Some(pc.item) else None
  }

  /** Items are received in the order in which they were accepted, and what is queued is the rest. */
  ghost predicate InOrder<T>(s: State<T>) {
    s.log.received <= |s.log.accepted| && s.queue == s.log.accepted[s.log.received..]
  }

  /** Every received item is owned by one worker, finished, or dropped: exactly one of the three. */
  ghost predicate Partitioned<T>(s: State<T>) {
    && (forall k: nat :: k < s.log.received <==> k in s.log.owner || k in s.log.finished || k in s.log.dropped)
    && (forall k :: k in s.log.owner ==> k !in s.log.finished && k !in s.log.dropped)
    && s.log.finished !! s.log.dropped
  }

  /** The owner of an item is the one worker that has it. */
  ghost predicate Owned<T>(s: State<T>) {
    && (forall i: nat :: i < |s.workers| && ItemOf(s.workers[i]).Some? ==>
          ItemOf(s.workers[i]).value in s.log.owner && s.log.owner[ItemOf(s.workers[i]).value] == i)
    && (forall k :: k in s.log.owner ==>
          s.log.owner[k] < |s.workers| && ItemOf(s.workers[s.log.owner[k]]) == Some(k))
  }

  /** The items that entered the handler are those finished and those in the handler bracket, once each. */
  ghost predicate EnteredOnce<T>(s: State<T>) {
    && (forall m, n :: 0 <= m < n < |s.log.entered| ==> s.log.entered[m] != s.log.entered[n])
    && (forall k :: k in s.log.entered <==>
          k in s.log.finished
          || (k in s.log.owner && s.log.owner[k] < |s.workers| && Is(InBracket, s.workers[s.log.owner[k]])))
  }

  ghost predicate Conserved<T>(s: State<T>) {
    InOrder(s) && Partitioned(s) && Owned(s) && EnteredOnce(s)
  }

  /** Steps of the clients, of Start and of the autoscaler only add to the queue or start goroutines. */
  lemma ConservedOther<T>(s: State<T>, t: State<T>)
    requires Conserved(s) && InOrder(t)
    requires t.workers == s.workers || t.workers == s.workers + [Load]
    requires t.log.received == s.log.received && t.log.owner == s.log.owner && t.log.entered == s.log.entered
    requires t.log.finished == s.log.finished && t.log.dropped == s.log.dropped
    ensures Conserved(t)
  {
    hide InOrder;
  }

  lemma ConservedClient<T>(cfg: Config, s: State<T>, a: ClientAction<T>)
    requires Conserved(s) && ClientEnabled(cfg, s, a)
    ensures Conserved(ClientNext(cfg, s, a))
  {
    hide Partitioned, Owned, EnteredOnce;
    ConservedOther(s, ClientNext(cfg, s, a));
  }

  lemma ConservedStart<T>(cfg: Config, s: State<T>, a: StartAction)
    requires Conserved(s) && StartEnabled(s, a)
    ensures Conserved(StartNext(cfg, s, a))
  {
    hide Partitioned, Owned, EnteredOnce;
    ConservedOther(s, StartNext(cfg, s, a));
  }

  lemma ConservedScale<T>(cfg: Config, s: State<T>, a: ScalerAction)
    requires Conserved(s) && ScalerEnabled(s, a)
    ensures Conserved(ScalerNext(cfg, s, a))
  {
    hide Partitioned, Owned, EnteredOnce, ScalerNext, ScalerEnabled;
    ScaleLeaves(cfg, s, a);
    ScaleEffects(cfg, s, a);
    ConservedOther(s, ScalerNext(cfg, s, a));
  }

  /** A step of a worker that has no item, before or after. */
  lemma ConservedIdle<T>(s: State<T>, t: State<T>, i: nat, pc: Pc)
    requires Conserved(s) && i < |s.workers| && t.workers == s.workers[i := pc]
    requires ItemOf(s.workers[i]).None? && ItemOf(pc).None?
    requires t.log == s.log && t.queue == s.queue
    ensures Conserved(t)
  {
  }

  /** What receiving does: worker i gets the head of the queue as the next item. */
  ghost predicate Received<T>(s: State<T>, t: State<T>, i: nat) {
    var k := s.log.received;
    && i < |s.workers| && ItemOf(s.workers[i]).None? && s.queue != [] && t.queue == s.queue[1..]
    && t.workers == s.workers[i := Got(k)]
    && t.log == s.log.(received := k + 1, owner := s.log.owner[k := i])
  }

  lemma ReceivedFresh<T>(s: State<T>)
    requires Partitioned(s)
    ensures var k := s.log.received; k !in s.log.owner && k !in s.log.finished && k !in s.log.dropped
  {
  }

  lemma ReceivedParts<T>(s: State<T>, t: State<T>, i: nat)
    requires InOrder(s) && Partitioned(s) && Received(s, t, i)
    ensures InOrder(t) && Partitioned(t)
  {
    ReceivedFresh(s);
  }

  lemma ReceivedOwned<T>(s: State<T>, t: State<T>, i: nat)
    requires Partitioned(s) && Owned(s) && EnteredOnce(s) && Received(s, t, i)
    ensures Owned(t) && EnteredOnce(t)
  {
    hide Partitioned;
    ReceivedFresh(s);
  }

  lemma ConservedReceive<T>(cfg: Config, s: State<T>, i: nat)
    requires Conserved(s) && WorkerEnabled(cfg, s, i, Receive)
    ensures Conserved(WorkerNext(cfg, s, i, Receive))
  {
    hide InOrder, Partitioned, Owned, EnteredOnce;
    var t := WorkerNext(cfg, s, i, Receive);
    ReceivedParts(s, t, i);
    ReceivedOwned(s, t, i);
  }

  /** A worker keeps its item and moves inside, or outside, the handler bracket. */
  lemma ConservedKeep<T>(s: State<T>, t: State<T>, i: nat, pc: Pc)
    requires Conserved(s) && i < |s.workers| && t.workers == s.workers[i := pc]
    requires ItemOf(s.workers[i]).Some? && ItemOf(pc) == ItemOf(s.workers[i])
    requires t.queue == s.queue && t.log == s.log.(entered := t.log.entered, failed := t.log.failed)
    requires (Is(InBracket, pc) == Is(InBracket, s.workers[i]) && t.log.entered == s.log.entered)
             || (Is(InBracket, pc) && !Is(InBracket, s.workers[i])
                 && t.log.entered == s.log.entered + [ItemOf(pc).value])
    ensures Conserved(t)
  {
    var k := ItemOf(pc).value;
    assert s.log.owner[k] == i;
    assert !Is(InBracket, s.workers[i]) ==> k !in s.log.entered;
  }

  /** A worker lets go of its item, which is then finished or dropped. */
  lemma ConservedRelease<T>(s: State<T>, t: State<T>, i: nat, pc: Pc)
    requires Conserved(s) && i < |s.workers| && t.workers == s.workers[i := pc]
    requires ItemOf(s.workers[i]).Some? && ItemOf(pc).None? && t.queue == s.queue
    requires var k := ItemOf(s.workers[i]).value;
             if Is(InBracket, s.workers[i])
             then t.log == s.log.(owner := s.log.owner - {k}, finished := s.log.finished + {k})
             else t.log == s.log.(owner := s.log.owner - {k}, dropped := s.log.dropped + {k})
    ensures Conserved(t)
  {
    var k := ItemOf(s.workers[i]).value;
    assert s.log.owner[k] == i;
    assert forall j :: j in t.log.owner ==> s.log.owner[j] != i;
  }

  lemma ConservedHandling<T>(cfg: Config, s: State<T>, i: nat, w: WorkerAction)
    requires Conserved(s) && WorkerEnabled(cfg, s, i, w)
    requires w.LoadStopping? || w.IncBusy? || w.EndHandler? || w.DecBusy?
    ensures Conserved(WorkerNext(cfg, s, i, w))
  {
    hide Conserved;
    var t := WorkerNext(cfg, s, i, w);
    if w.DecBusy? || (w.LoadStopping? && s.stopping) {
      ConservedRelease(s, t, i, t.workers[i]);
    } else {
      ConservedKeep(s, t, i, t.workers[i]);
    }
  }

  lemma ConservedWaiting<T>(cfg: Config, s: State<T>, i: nat, w: WorkerAction)
    requires Conserved(s) && WorkerEnabled(cfg, s, i, w)
    requires !(w.LoadStopping? || w.IncBusy? || w.EndHandler? || w.DecBusy? || w.Receive?)
    ensures Conserved(WorkerNext(cfg, s, i, w))
  {
    hide Conserved;
    var t := WorkerNext(cfg, s, i, w);
    ConservedIdle(s, t, i, t.workers[i]);
  }

  lemma ConservedWork<T>(cfg: Config, s: State<T>, i: nat, w: WorkerAction)
    requires Conserved(s) && WorkerEnabled(cfg, s, i, w)
    ensures Conserved(WorkerNext(cfg, s, i, w))
  {
    hide Conserved, WorkerNext, WorkerEnabled;
    match w
    case Receive => ConservedReceive(cfg, s, i);
    case LoadStopping => ConservedHandling(cfg, s, i, w);
    case IncBusy => ConservedHandling(cfg, s, i, w);
    case EndHandler(_) => ConservedHandling(cfg, s, i, w);
    case DecBusy => ConservedHandling(cfg, s, i, w);
    case _ => ConservedWaiting(cfg, s, i, w);
  }

  lemma ConservedStep<T>(cfg: Config, s: State<T>, a: Action<T>)
    requires Conserved(s) && Enabled(cfg, s, a)
    ensures Conserved(Next(cfg, s, a))
  {
    hide ClientNext, StartNext, ScalerNext, WorkerNext, StartEnabled, ScalerEnabled, WorkerEnabled, ClientEnabled,
      Conserved;
    match a
    case Client(b) => ConservedClient(cfg, s, b);
    case Start(b) => ConservedStart(cfg, s, b);
    case Scale(b) => ConservedScale(cfg, s, b);
    case Work(i, w) => ConservedWork(cfg, s, i, w);
  }

  // ----- what Submit returned -----

  /** The Submit calls that returned nil. */
  function Accepting<T>(submits: seq<SubmitPc<T>>): nat {
    if |submits| == 0 then 0
    else
      var n := |submits| - 1;
      Accepting(submits[..n]) + if submits[n].Submitted? && submits[n].err.None? then 1 else 0
  }

  lemma {:induction false} AcceptingUpdate<T>(submits: seq<SubmitPc<T>>, j: nat, pc: SubmitPc<T>)
    requires j < |submits| && !submits[j].Submitted?
    ensures Accepting(submits[j := pc]) == Accepting(submits) + if pc.Submitted? && pc.err.None? then 1 else 0
  {
    var n := |submits| - 1;
    if j < n {
      AcceptingUpdate(submits[..n], j, pc);
      assert submits[j := pc][..n] == submits[..n][j := pc];
    } else {
      assert submits[j := pc][..n] == submits[..n];
    }
  }

  /** One accepted item for each Submit that returned nil. */
  ghost predicate SubmitsExact<T>(s: State<T>) {
    |s.log.accepted| == Accepting(s.submits)
  }

  lemma SubmitsClient<T>(cfg: Config, s: State<T>, a: ClientAction<T>)
    requires SubmitsExact(s) && ClientEnabled(cfg, s, a)
    ensures SubmitsExact(ClientNext(cfg, s, a))
  {
    hide Accepting;
    var t := ClientNext(cfg, s, a);
    match a
    case BeginSubmit(data) => BeginAccepting(s.submits, Checking(data));
    case CheckClosed(j) => AcceptingUpdate(s.submits, j, t.submits[j]);
    case Send(j) => AcceptingUpdate(s.submits, j, t.submits[j]);
    case GiveUp(j) => AcceptingUpdate(s.submits, j, t.submits[j]);
    case _ =>
  }

  lemma BeginAccepting<T>(submits: seq<SubmitPc<T>>, pc: SubmitPc<T>)
    requires !pc.Submitted?
    ensures Accepting(submits + [pc]) == Accepting(submits)
  {
    assert (submits + [pc])[..|submits|] == submits;
  }

  lemma SubmitsStart<T>(cfg: Config, s: State<T>, a: StartAction)
    requires SubmitsExact(s) && StartEnabled(s, a)
    ensures SubmitsExact(StartNext(cfg, s, a))
  {
    hide Accepting;
  }

  lemma SubmitsScale<T>(cfg: Config, s: State<T>, a: ScalerAction)
    requires SubmitsExact(s) && ScalerEnabled(s, a)
    ensures SubmitsExact(ScalerNext(cfg, s, a))
  {
    hide Accepting, ScalerNext, ScalerEnabled;
    ScaleLeaves(cfg, s, a);
    ScaleEffects(cfg, s, a);
  }

  lemma SubmitsWork<T>(cfg: Config, s: State<T>, i: nat, w: WorkerAction)
    requires SubmitsExact(s) && WorkerEnabled(cfg, s, i, w)
    ensures SubmitsExact(WorkerNext(cfg, s, i, w))
  {
    hide Accepting, WorkerPc;
  }

  lemma SubmitsStep<T>(cfg: Config, s: State<T>, a: Action<T>)
    requires SubmitsExact(s) && Enabled(cfg, s, a)
    ensures SubmitsExact(Next(cfg, s, a))
  {
    hide SubmitsExact, ClientNext, StartNext, ScalerNext, WorkerNext, ClientEnabled, StartEnabled, ScalerEnabled,
      WorkerEnabled;
    match a
    case Client(b) => SubmitsClient(cfg, s, b);
    case Start(b) => SubmitsStart(cfg, s, b);
    case Scale(b) => SubmitsScale(cfg, s, b);
    case Work(i, w) => SubmitsWork(cfg, s, i, w);
  }
}
