/** The observer fan-out (observer/observer.go:36-97) as a transition system. Slices are values here:
    Registry shows that a worker's slice never changes under it. */
module Delivery {
  import opened Wrappers

  datatype Event = Event(name: string, data: int)

  /** Where a worker goroutine is; events are numbered in the order in which they were taken. */
  datatype Pc<O> =
    | Ready                                                     // at the select (line 38)
    | Took(ev: nat, event: Event)                               // about to read the registry (line 46)
    | Fanning(ev: nat, handlers: seq<O>, launched: nat,         // in the loop or in group.Wait (lines 56-64);
              called: set<nat>, returned: set<nat>, failed: bool)  // which Update calls began and returned
    | Stopped

  /** History: the events sent and taken and by which worker, who has those in progress, the observers
      registered when each was taken, the slice each got, every Update call as (event, index into the slice) and
      whether those that returned failed, and whether the context was canceled from outside. */
  datatype Ledger<O> = Ledger(sent: multiset<Event>, taken: seq<Event>, taker: seq<nat>, owner: map<nat, nat>,
                              done: set<nat>, early: map<nat, seq<O>>, handlers: map<nat, seq<O>>,
                              calls: multiset<(nat, nat)>, outcomes: map<(nat, nat), bool>, external: bool)

  datatype State<O> = State(registry: map<string, seq<O>>, notifying: seq<Event>, canceled: bool,
                            workers: seq<Pc<O>>, log: Ledger<O>)

  function Initially<O>(n: nat): State<O> {
    State(map[], [], false, seq(n, _ => Ready),
          Ledger(multiset{}, [], [], map[], {}, map[], map[], multiset{}, map[], false))
  }

  function Registered<O>(registry: map<string, seq<O>>, name: string): seq<O> {
    if name in registry then registry[name] else []
  }

  datatype Action<O> =
    | Register(name: string, observer: O)   // line 92
    | Notify(event: Event)                  // a client blocks in the send (line 96)
    | Cancel
    | Take(w: nat, j: nat)                  // worker w receives the event of the j-th blocked client (line 41)
    | SeeCancel(w: nat)                     // line 39
    | Read(w: nat)                          // lines 46-52
    | Launch(w: nat)                        // lines 56-59
    | Call(w: nat, i: nat)                  // line 60, Update begins
    | Return(w: nat, i: nat, fails: bool)   // line 60, Update returns
    | Join(w: nat)                          // line 64

  predicate Enabled<O>(s: State<O>, a: Action<O>) {
    match a
    case Register(_, _) => true
    case Notify(_) => true
    case Cancel => true
    case Take(w, j) => w < |s.workers| && s.workers[w].Ready? && j < |s.notifying|
    case SeeCancel(w) => w < |s.workers| && s.workers[w].Ready? && s.canceled
    case Read(w) => w < |s.workers| && s.workers[w].Took?
    case Launch(w) => w < |s.workers| && s.workers[w].Fanning? && s.workers[w].launched < |s.workers[w].handlers|
    case Call(w, i) =>
      w < |s.workers| && s.workers[w].Fanning? && i < s.workers[w].launched && i !in s.workers[w].called
    case Return(w, i, _) =>
      w < |s.workers| && s.workers[w].Fanning? && i in s.workers[w].called && i !in s.workers[w].returned
    case Join(w) =>
      w < |s.workers| && s.workers[w].Fanning? && s.workers[w].launched == |s.workers[w].handlers|
      && forall i :: 0 <= i < s.workers[w].launched ==> i in s.workers[w].returned
  }

  function Next<O>(s: State<O>, a: Action<O>): State<O>
    requires Enabled(s, a)
  {
    match a
    case Register(e, o) =>
      s.(registry := s.registry[e := Registered(s.registry, e) + [o]])
    case Notify(event) => s.(notifying := s.notifying + [event], log := s.log.(sent := s.log.sent + multiset{event}))
    case Cancel => s.(canceled := true, log := s.log.(external := true))
    case Take(w, j) =>
      var id, event := |s.log.taken|, s.notifying[j];
      s.(notifying := s.notifying[..j] + s.notifying[j + 1..], workers := s.workers[w := Took(id, event)],
         log := s.log.(taken := s.log.taken + [event], taker := s.log.taker + [w], owner := s.log.owner[id := w],
                       early := s.log.early[id := Registered(s.registry, event.name)]))
    case SeeCancel(w) => s.(workers := s.workers[w := Stopped])
    case Read(w) =>
      var id, hs := s.workers[w].ev, Registered(s.registry, s.workers[w].event.name);
      var handlers := s.log.handlers[id := hs];
      if hs == [] then
        s.(workers := s.workers[w := Ready],
           log := s.log.(handlers := handlers, owner := s.log.owner - {id}, done := s.log.done + {id}))
      else
        s.(workers := s.workers[w := Fanning(id, hs, 0, {}, {}, false)], log := s.log.(handlers := handlers))
    case Launch(w) =>
      var pc := s.workers[w];
      s.(workers := s.workers[w := pc.(launched := pc.launched + 1)])
    case Call(w, i) =>
      var pc := s.workers[w];
      s.(workers := s.workers[w := pc.(called := pc.called + {i})],
         log := s.log.(calls := s.log.calls + multiset{(pc.ev, i)}))
    case Return(w, i, fails) =>
      var pc := s.workers[w];
      var failed := pc.failed || fails;
      s.(workers := s.workers[w := pc.(returned := pc.returned + {i}, failed := failed)],
         log := s.log.(outcomes := s.log.outcomes[(pc.ev, i) := fails]))
    case Join(w) =>
      var pc := s.workers[w];
      s.(workers := s.workers[w := if pc.failed then Stopped else Ready],
         canceled := s.canceled || pc.failed,
         log := s.log.(owner := s.log.owner - {pc.ev}, done := s.log.done + {pc.ev}))
  }

  function Run<O>(s: State<O>, run: seq<Action<O>>): Option<State<O>>
    decreases |run|
  {
    if run == [] then Some(s)
    else if Enabled(s, run[0]) then Run(Next(s, run[0]), run[1..])
    else None
  }

  // ----- what every step keeps -----

  function EventOf<O>(pc: Pc<O>): Option<nat> {
    if pc.Took? || pc.Fanning? then Some(pc.ev) else None
  }

  /** Every event sent is still with its client or was taken once. */
  ghost predicate SentOnce<O>(s: State<O>) {
    s.log.sent == multiset(s.notifying) + multiset(s.log.taken)
  }

  /** Every event taken is done or in the hands of exactly one worker. */
  ghost predicate Owned<O>(s: State<O>) {
    && (forall k: nat :: k < |s.log.taken| <==> k in s.log.owner || k in s.log.done)
    && (forall k :: k in s.log.owner ==> k !in s.log.done)
    && (forall w: nat :: w < |s.workers| && EventOf(s.workers[w]).Some? ==>
          EventOf(s.workers[w]).value in s.log.owner && s.log.owner[EventOf(s.workers[w]).value] == w)
    && (forall k :: k in s.log.owner ==>
          s.log.owner[k] < |s.workers| && EventOf(s.workers[s.log.owner[k]]) == Some(k))
  }

  /** The slice of an event lies between the registrations when it was taken and those now. */
  ghost predicate Bracketed<O>(s: State<O>) {
    && (forall k: nat :: k < |s.log.taken| <==> k in s.log.early)
    && (forall k: nat :: k in s.log.early && k < |s.log.taken| ==>
          s.log.early[k] <= Registered(s.registry, s.log.taken[k].name))
    && (forall k: nat :: k in s.log.handlers ==>
          k in s.log.early && k < |s.log.taken|
          && s.log.early[k] <= s.log.handlers[k] <= Registered(s.registry, s.log.taken[k].name))
    && (forall w: nat :: w < |s.workers| && s.workers[w].Took? ==>
          s.workers[w].ev < |s.log.taken| && s.log.taken[s.workers[w].ev] == s.workers[w].event)
  }

  /** What a fan-out in progress looks like. */
  ghost predicate Progress<O>(s: State<O>, pc: Pc<O>) {
    pc.Fanning? ==>
      && pc.ev in s.log.handlers && pc.handlers == s.log.handlers[pc.ev] && pc.launched <= |pc.handlers|
      && (forall i :: i in pc.called ==> i < pc.launched) && pc.returned <= pc.called
  }

  /** The Update calls that have begun: all of those of a done event, some of one in progress. */
  ghost predicate Called<O>(s: State<O>, k: nat, i: nat) {
    || (k in s.log.done && k in s.log.handlers && i < |s.log.handlers[k]|)
    || (k in s.log.owner && s.log.owner[k] < |s.workers| && s.workers[s.log.owner[k]].Fanning?
        && i in s.workers[s.log.owner[k]].called)
  }

  ghost predicate CalledOnce<O>(s: State<O>) {
    && (forall k :: k in s.log.done ==> k in s.log.handlers)
    && (forall w: nat :: w < |s.workers| ==> Progress(s, s.workers[w]))
    && (forall k: nat, i: nat :: s.log.calls[(k, i)] == if Called(s, k, i) then 1 else 0)
  }

  ghost predicate Exact<O>(s: State<O>) {
    SentOnce(s) && Owned(s) && Bracketed(s) && CalledOnce(s)
  }

  lemma OneLess<E>(q: seq<E>, j: nat)
    requires j < |q|
    ensures multiset(q) == multiset(q[..j] + q[j + 1..]) + multiset{q[j]}
  {
    assert q == q[..j] + [q[j]] + q[j + 1..];
  }

  lemma SentTake<O>(s: State<O>, w: nat, j: nat)
    requires SentOnce(s) && Enabled(s, Take(w, j))
    ensures SentOnce(Next(s, Take(w, j)))
  {
    hide Registered;
    OneLess(s.notifying, j);
  }

  lemma SentNotify<O>(s: State<O>, event: Event)
    requires SentOnce(s)
    ensures SentOnce(Next(s, Notify(event)))
  {
  }

  lemma SentOther<O>(s: State<O>, t: State<O>)
    requires SentOnce(s) && t.log.sent == s.log.sent && t.notifying == s.notifying && t.log.taken == s.log.taken
    ensures SentOnce(t)
  {
  }

  lemma SentStep<O>(s: State<O>, a: Action<O>)
    requires SentOnce(s) && Enabled(s, a)
    ensures SentOnce(Next(s, a))
  {
    hide SentOnce, Registered;
    match a
    case Take(w, j) => SentTake(s, w, j);
    case Notify(event) => SentNotify(s, event);
    case Read(_) => SentOther(s, Next(s, a));
    case _ => SentOther(s, Next(s, a));
  }

  lemma OwnedTake<O>(s: State<O>, w: nat, j: nat)
    requires Owned(s) && Enabled(s, Take(w, j))
    ensures Owned(Next(s, Take(w, j)))
  {
    assert |s.log.taken| !in s.log.owner && |s.log.taken| !in s.log.done;
  }

  /** A worker lets go of its event, which is then done. */
  lemma OwnedDone<O>(s: State<O>, t: State<O>, w: nat, pc: Pc<O>)
    requires Owned(s) && w < |s.workers| && EventOf(s.workers[w]).Some? && EventOf(pc).None?
    requires t.workers == s.workers[w := pc] && t.log.taken == s.log.taken
    requires t.log.owner == s.log.owner - {EventOf(s.workers[w]).value}
    requires t.log.done == s.log.done + {EventOf(s.workers[w]).value}
    ensures Owned(t)
  {
    assert s.log.owner[EventOf(s.workers[w]).value] == w;
  }

  lemma OwnedOther<O>(s: State<O>, t: State<O>, w: nat, pc: Pc<O>)
    requires Owned(s) && t.log.taken == s.log.taken && t.log.owner == s.log.owner && t.log.done == s.log.done
    requires t.workers == s.workers
             || (w < |s.workers| && t.workers == s.workers[w := pc] && EventOf(pc) == EventOf(s.workers[w]))
    ensures Owned(t)
  {
  }

  lemma OwnedStep<O>(s: State<O>, a: Action<O>)
    requires Owned(s) && Enabled(s, a)
    ensures Owned(Next(s, a))
  {
    hide Owned, Registered;
    var t := Next(s, a);
    match a
    case Take(w, j) => OwnedTake(s, w, j);
    case Read(w) =>
      if t.workers[w].Ready? {
        OwnedDone(s, t, w, Ready);
      } else {
        OwnedOther(s, t, w, t.workers[w]);
      }
    case Join(w) => OwnedDone(s, t, w, t.workers[w]);
    case SeeCancel(w) => OwnedOther(s, t, w, t.workers[w]);
    case Launch(w) => OwnedOther(s, t, w, t.workers[w]);
    case Call(w, _) => OwnedOther(s, t, w, t.workers[w]);
    case Return(w, _, _) => OwnedOther(s, t, w, t.workers[w]);
    case _ => OwnedOther(s, t, 0, Ready);
  }

  lemma BracketedRegister<O>(s: State<O>, name: string, o: O)
    requires Bracketed(s)
    ensures Bracketed(Next(s, Register(name, o)))
  {
    var t := Next(s, Register(name, o));
    assert forall e :: Registered(s.registry, e) <= Registered(t.registry, e);
  }

  lemma BracketedTake<O>(s: State<O>, w: nat, j: nat)
    requires Bracketed(s) && Enabled(s, Take(w, j))
    ensures Bracketed(Next(s, Take(w, j)))
  {
  }

  lemma BracketedGets<O>(s: State<O>, t: State<O>, w: nat, pc: Pc<O>)
    requires Bracketed(s) && w < |s.workers| && s.workers[w].Took? && !pc.Took?
    requires t.registry == s.registry && t.workers == s.workers[w := pc]
    requires t.log.taken == s.log.taken && t.log.early == s.log.early
    requires t.log.handlers == s.log.handlers[s.workers[w].ev := Registered(s.registry, s.workers[w].event.name)]
    ensures Bracketed(t)
  {
    hide Registered;
  }

  lemma BracketedRead<O>(s: State<O>, w: nat)
    requires Bracketed(s) && Enabled(s, Read(w))
    ensures Bracketed(Next(s, Read(w)))
  {
    hide Registered, Bracketed;
    var t := Next(s, Read(w));
    BracketedGets(s, t, w, t.workers[w]);
  }

  lemma BracketedOther<O>(s: State<O>, t: State<O>)
    requires Bracketed(s) && t.registry == s.registry && |t.workers| == |s.workers|
    requires t.log.taken == s.log.taken && t.log.early == s.log.early && t.log.handlers == s.log.handlers
    requires forall w :: 0 <= w < |s.workers| && t.workers[w].Took? ==> t.workers[w] == s.workers[w]
    ensures Bracketed(t)
  {
  }

  lemma BracketedStep<O>(s: State<O>, a: Action<O>)
    requires Bracketed(s) && Enabled(s, a)
    ensures Bracketed(Next(s, a))
  {
    hide Bracketed;
    match a
    case Register(name, o) => BracketedRegister(s, name, o);
    case Take(w, j) => BracketedTake(s, w, j);
    case Read(w) => BracketedRead(s, w);
    case _ => BracketedOther(s, Next(s, a));
  }

  /** Steps that begin no Update call and finish no event. */
  lemma CalledOther<O>(s: State<O>, t: State<O>, w: nat, pc: Pc<O>)
    requires CalledOnce(s) && t.log.handlers == s.log.handlers && t.log.owner == s.log.owner
    requires t.log.done == s.log.done && t.log.calls == s.log.calls
    requires t.workers == s.workers
             || (w < |s.workers| && t.workers == s.workers[w := pc] && Progress(t, pc)
                 && (pc.Fanning? <==> s.workers[w].Fanning?) && (pc.Fanning? ==> pc.called == s.workers[w].called))
    ensures CalledOnce(t)
  {
    assert forall k: nat, i: nat :: Called(t, k, i) == Called(s, k, i);
  }

  lemma CalledTake<O>(s: State<O>, w: nat, j: nat)
    requires Owned(s) && CalledOnce(s) && Enabled(s, Take(w, j))
    ensures CalledOnce(Next(s, Take(w, j)))
  {
    var t := Next(s, Take(w, j));
    assert forall k: nat, i: nat :: Called(t, k, i) == Called(s, k, i);
  }

  /** A worker that read a slice: nobody to call, or nobody called yet. */
  ghost predicate HasRead<O>(s: State<O>, t: State<O>, w: nat, hs: seq<O>) {
    && w < |s.workers| && s.workers[w].Took?
    && var id := s.workers[w].ev;
    && t.log.handlers == s.log.handlers[id := hs] && t.log.calls == s.log.calls
    && if hs == [] then
         && t.workers == s.workers[w := Ready]
         && t.log.owner == s.log.owner - {id} && t.log.done == s.log.done + {id}
       else
         && t.workers == s.workers[w := Fanning(id, hs, 0, {}, {}, false)]
         && t.log.owner == s.log.owner && t.log.done == s.log.done
  }

  lemma ReadCallsNobody<O>(s: State<O>, t: State<O>, w: nat, hs: seq<O>, k: nat, i: nat)
    requires Owned(s) && HasRead(s, t, w, hs)
    ensures Called(t, k, i) == Called(s, k, i)
  {
    assert s.log.owner[s.workers[w].ev] == w;
  }

  lemma CalledHasRead<O>(s: State<O>, t: State<O>, w: nat, hs: seq<O>)
    requires Owned(s) && CalledOnce(s) && HasRead(s, t, w, hs)
    ensures CalledOnce(t)
  {
    hide Called;
    forall k: nat, i: nat
      ensures Called(t, k, i) == Called(s, k, i)
    {
      ReadCallsNobody(s, t, w, hs, k, i);
    }
    assert s.log.owner[s.workers[w].ev] == w;
  }

  lemma CalledRead<O>(s: State<O>, w: nat)
    requires Owned(s) && CalledOnce(s) && Enabled(s, Read(w))
    ensures CalledOnce(Next(s, Read(w)))
  {
    hide Registered, Owned, CalledOnce;
    CalledHasRead(s, Next(s, Read(w)), w, Registered(s.registry, s.workers[w].event.name));
  }

  lemma CalledCall<O>(s: State<O>, w: nat, i: nat)
    requires Owned(s) && CalledOnce(s) && Enabled(s, Call(w, i))
    ensures CalledOnce(Next(s, Call(w, i)))
  {
    var t := Next(s, Call(w, i));
    var ev := s.workers[w].ev;
    assert s.log.owner[ev] == w;
    assert forall k: nat, m: nat :: Called(t, k, m) <==> Called(s, k, m) || (k == ev && m == i);
    assert !Called(s, ev, i);
  }

  lemma CalledJoin<O>(s: State<O>, w: nat)
    requires Owned(s) && CalledOnce(s) && Enabled(s, Join(w))
    ensures CalledOnce(Next(s, Join(w)))
  {
    var t := Next(s, Join(w));
    var pc := s.workers[w];
    assert s.log.owner[pc.ev] == w;
    assert forall m: nat :: m < |pc.handlers| <==> m in pc.called;
    assert forall k: nat, m: nat :: Called(t, k, m) == Called(s, k, m);
  }

  lemma CalledStep<O>(s: State<O>, a: Action<O>)
    requires Owned(s) && CalledOnce(s) && Enabled(s, a)
    ensures CalledOnce(Next(s, a))
  {
    hide CalledOnce, Owned, Called, Registered;
    match a
    case Take(w, j) => CalledTake(s, w, j);
    case Read(w) => CalledRead(s, w);
    case Call(w, i) => CalledCall(s, w, i);
    case Join(w) => CalledJoin(s, w);
    case SeeCancel(w) => CalledOther(s, Next(s, a), w, Stopped);
    case Launch(w) => CalledMoves(s, a, w);
    case Return(w, _, _) => CalledMoves(s, a, w);
    case _ => CalledOther(s, Next(s, a), 0, Ready);
  }

  lemma CalledMoves<O>(s: State<O>, a: Action<O>, w: nat)
    requires CalledOnce(s) && Enabled(s, a) && (a == Launch(w) || (a.Return? && a.w == w))
    ensures CalledOnce(Next(s, a))
  {
    hide Called;
    var t := Next(s, a);
    assert Progress(s, s.workers[w]);
    assert Progress(t, t.workers[w]);
    CalledOther(s, t, w, t.workers[w]);
  }

  lemma ExactStep<O>(s: State<O>, a: Action<O>)
    requires Exact(s) && Enabled(s, a)
    ensures Exact(Next(s, a))
  {
    hide SentOnce, Owned, Bracketed, CalledOnce, Next, Enabled;
    SentStep(s, a);
    OwnedStep(s, a);
    BracketedStep(s, a);
    CalledStep(s, a);
  }

  lemma {:induction false} ExactRun<O>(s: State<O>, run: seq<Action<O>>)
    requires Exact(s)
    ensures Run(s, run).Some? ==> Exact(Run(s, run).value)
    decreases |run|
  {
    hide Exact, Next, Enabled;
    if run != [] && Enabled(s, run[0]) {
      ExactStep(s, run[0]);
      ExactRun(Next(s, run[0]), run[1..]);
    }
  }

  lemma StartsExact<O>(n: nat)
    ensures Exact<O>(Initially(n))
  {
  }

  /** In every run, each event sent is still with its client or was taken by exactly one worker; once that
      worker is done with it, whether or not some Update failed, Update has been called exactly once for each
      observer of the slice the worker read, which holds every observer registered before the event was taken,
      in order, and none that was never registered. No Update is ever called twice. */
  lemma DeliveryAlways<O>(n: nat, run: seq<Action<O>>)
    requires Run(Initially<O>(n), run).Some?
    ensures var s := Run(Initially<O>(n), run).value;
            && Exact(s)
            && s.log.sent == multiset(s.notifying) + multiset(s.log.taken)
            && (forall k: nat :: k < |s.log.taken| <==> (k in s.log.owner) != (k in s.log.done))
            && (forall k, i: nat :: k in s.log.done ==>
                  k in s.log.handlers && s.log.calls[(k, i)] == if i < |s.log.handlers[k]| then 1 else 0)
            && (forall k: nat :: k in s.log.handlers ==>
                  k in s.log.early && k < |s.log.taken|
                  && s.log.early[k] <= s.log.handlers[k] <= Registered(s.registry, s.log.taken[k].name))
            && (forall k: nat, i: nat :: s.log.calls[(k, i)] <= 1)
  {
    hide Run, Initially, Registered;
    StartsExact<O>(n);
    ExactRun(Initially<O>(n), run);
    var s := Run(Initially<O>(n), run).value;
    assert forall k, i: nat :: k in s.log.done ==> (Called(s, k, i) <==> i < |s.log.handlers[k]|);
  }
}
