/** What a failing Update does: its event is still delivered to everybody, its worker stops, and the group is
    canceled; nothing else stops a worker. */
module DeliveryOutcomes {
  import opened Wrappers
  import opened Delivery

  /** Some Update call for event k has returned an error. */
  ghost predicate Failed<O>(log: Ledger<O>, k: nat) {
    exists i: nat :: (k, i) in log.outcomes && log.outcomes[(k, i)]
  }

  /** What a fan-out in progress knows of its own calls. */
  ghost predicate Aware<O>(s: State<O>, pc: Pc<O>) {
    && (pc.Fanning? ==>
          && (forall i: nat :: i in pc.returned <==> (pc.ev, i) in s.log.outcomes)
          && (pc.failed <==> Failed(s.log, pc.ev)))
    && (pc.Took? ==> forall i: nat :: (pc.ev, i) !in s.log.outcomes)
    && (pc.Stopped? ==> s.canceled)
  }

  /** A done event has all its calls back, and if one failed, its worker has stopped and the group is canceled. */
  ghost predicate Closed<O>(s: State<O>, k: nat) {
    && k < |s.log.taker| && k in s.log.handlers
    && (forall i: nat :: i < |s.log.handlers[k]| ==> (k, i) in s.log.outcomes)
    && (Failed(s.log, k) ==>
          s.canceled && s.log.taker[k] < |s.workers| && s.workers[s.log.taker[k]].Stopped?)
  }

  ghost predicate Settled<O>(s: State<O>) {
    && |s.log.taker| == |s.log.taken|
    && (forall k: nat :: k in s.log.owner ==> k < |s.log.taker| && s.log.taker[k] == s.log.owner[k])
    && (forall w: nat :: w < |s.workers| ==> Aware(s, s.workers[w]))
    && (forall k: nat :: k in s.log.done ==> Closed(s, k))
    && (forall k: nat, i: nat :: (k, i) in s.log.outcomes ==> k < |s.log.taken|)
    && (s.canceled ==> s.log.external || exists k: nat :: k in s.log.done && Failed(s.log, k))
  }

  /** Steps that change no outcome and no event's state. */
  lemma SettledOther<O>(s: State<O>, t: State<O>, w: nat, pc: Pc<O>)
    requires Settled(s)
    requires t.log.taker == s.log.taker && t.log.taken == s.log.taken && t.log.owner == s.log.owner
    requires t.log.done == s.log.done && t.log.handlers == s.log.handlers && t.log.outcomes == s.log.outcomes
    requires (s.canceled ==> t.canceled) && (s.log.external ==> t.log.external)
    requires t.canceled ==> s.canceled || t.log.external
    requires t.workers == s.workers
             || (w < |s.workers| && t.workers == s.workers[w := pc] && Aware(t, pc) && !s.workers[w].Stopped?)
    ensures Settled(t)
  {
    assert forall k: nat :: Failed(t.log, k) == Failed(s.log, k);
    forall v: nat | v < |t.workers|
      ensures Aware(t, t.workers[v])
    {
      assert Aware(s, s.workers[v]);
    }
    forall k: nat | k in t.log.done
      ensures Closed(t, k)
    {
      assert Closed(s, k);
    }
  }

  lemma SettledTake<O>(s: State<O>, w: nat, j: nat)
    requires Settled(s) && Owned(s) && Enabled(s, Take(w, j))
    ensures Settled(Next(s, Take(w, j)))
  {
    hide Registered;
    var t := Next(s, Take(w, j));
    assert forall k: nat :: Failed(t.log, k) == Failed(s.log, k);
    forall v: nat | v < |t.workers|
      ensures Aware(t, t.workers[v])
    {
      assert Aware(s, s.workers[v]);
    }
    forall k: nat | k in t.log.done
      ensures Closed(t, k)
    {
      assert Closed(s, k);
    }
  }

  lemma SameFailed<O>(s: Ledger<O>, t: Ledger<O>)
    requires t.outcomes == s.outcomes
    ensures forall k: nat :: Failed(t, k) == Failed(s, k)
  {
  }

  lemma NoneFailed<O>(log: Ledger<O>, k: nat)
    requires forall i: nat :: (k, i) !in log.outcomes
    ensures !Failed(log, k)
  {
  }

  lemma SettledHasRead<O>(s: State<O>, t: State<O>, w: nat, hs: seq<O>)
    requires Settled(s) && Owned(s) && HasRead(s, t, w, hs)
    requires t.log.taker == s.log.taker && t.log.taken == s.log.taken && t.log.outcomes == s.log.outcomes
    requires t.canceled == s.canceled && t.log.external == s.log.external
    ensures Settled(t)
  {
    hide Failed;
    assert Aware(s, s.workers[w]) && s.log.owner[s.workers[w].ev] == w;
    SameFailed(s.log, t.log);
    NoneFailed(s.log, s.workers[w].ev);
    forall v: nat | v < |t.workers|
      ensures Aware(t, t.workers[v])
    {
      assert Aware(s, s.workers[v]);
    }
    forall k: nat | k in t.log.done
      ensures Closed(t, k)
    {
      if k in s.log.done {
        assert Closed(s, k);
      }
    }
  }

  lemma SettledRead<O>(s: State<O>, w: nat)
    requires Settled(s) && Owned(s) && Enabled(s, Read(w))
    ensures Settled(Next(s, Read(w)))
  {
    hide Registered, Settled, Owned;
    SettledHasRead(s, Next(s, Read(w)), w, Registered(s.registry, s.workers[w].event.name));
  }

  /** One more outcome of event k. */
  lemma FailedMore<O>(s: Ledger<O>, t: Ledger<O>, k: nat, i: nat, fails: bool, m: nat)
    requires (k, i) !in s.outcomes && t.outcomes == s.outcomes[(k, i) := fails]
    ensures Failed(t, m) <==> Failed(s, m) || (m == k && fails)
  {
    if Failed(s, m) {
      var j: nat :| (m, j) in s.outcomes && s.outcomes[(m, j)];
      assert (m, j) in t.outcomes && t.outcomes[(m, j)];
    }
    if m == k && fails {
      assert (k, i) in t.outcomes && t.outcomes[(k, i)];
    }
  }

  lemma SettledReturn<O>(s: State<O>, w: nat, i: nat, fails: bool)
    requires Settled(s) && Owned(s) && Enabled(s, Return(w, i, fails))
    ensures Settled(Next(s, Return(w, i, fails)))
  {
    hide Failed;
    var t, ev := Next(s, Return(w, i, fails)), s.workers[w].ev;
    assert Aware(s, s.workers[w]) && s.log.owner[ev] == w;
    forall m: nat
      ensures Failed(t.log, m) <==> Failed(s.log, m) || (m == ev && fails)
    {
      FailedMore(s.log, t.log, ev, i, fails, m);
    }
    forall v: nat | v < |t.workers|
      ensures Aware(t, t.workers[v])
    {
      assert Aware(s, s.workers[v]);
      assert v != w && EventOf(s.workers[v]).Some? ==> EventOf(s.workers[v]).value != ev;
    }
    forall k: nat | k in t.log.done
      ensures Closed(t, k)
    {
      if k in s.log.done {
        assert Closed(s, k);
      }
    }
  }

  lemma SettledJoin<O>(s: State<O>, w: nat)
    requires Settled(s) && Owned(s) && CalledOnce(s) && Enabled(s, Join(w))
    ensures Settled(Next(s, Join(w)))
  {
    hide Called;
    var t, ev := Next(s, Join(w)), s.workers[w].ev;
    assert Aware(s, s.workers[w]) && Progress(s, s.workers[w]) && s.log.owner[ev] == w;
    assert forall k: nat :: Failed(t.log, k) == Failed(s.log, k);
    forall v: nat | v < |t.workers|
      ensures Aware(t, t.workers[v])
    {
      assert Aware(s, s.workers[v]);
    }
    forall k: nat | k in t.log.done
      ensures Closed(t, k)
    {
      if k in s.log.done {
        assert Closed(s, k);
      }
    }
    assert t.canceled && !s.canceled ==> ev in t.log.done && Failed(t.log, ev);
  }

  lemma SettledLaunch<O>(s: State<O>, a: Action<O>, w: nat)
    requires Settled(s) && Enabled(s, a) && (a == Launch(w) || (a.Call? && a.w == w) || a == SeeCancel(w))
    ensures Settled(Next(s, a))
  {
    var t := Next(s, a);
    assert Aware(s, s.workers[w]);
    SettledOther(s, t, w, t.workers[w]);
  }

  lemma SettledStep<O>(s: State<O>, a: Action<O>)
    requires Settled(s) && Exact(s) && Enabled(s, a)
    ensures Settled(Next(s, a))
  {
    hide Settled, Owned, CalledOnce, Bracketed, SentOnce, Registered;
    match a
    case Take(w, j) => SettledTake(s, w, j);
    case Read(w) => SettledRead(s, w);
    case Return(w, i, fails) => SettledReturn(s, w, i, fails);
    case Join(w) => SettledJoin(s, w);
    case Launch(w) => SettledLaunch(s, a, w);
    case Call(w, _) => SettledLaunch(s, a, w);
    case SeeCancel(w) => SettledLaunch(s, a, w);
    case _ => SettledOther(s, Next(s, a), 0, Ready);
  }

  lemma {:induction false} SettledRun<O>(s: State<O>, run: seq<Action<O>>)
    requires Settled(s) && Exact(s)
    ensures Run(s, run).Some? ==> Settled(Run(s, run).value)
    decreases |run|
  {
    hide Exact, Settled, Next, Enabled;
    if run != [] && Enabled(s, run[0]) {
      SettledStep(s, run[0]);
      ExactStep(s, run[0]);
      SettledRun(Next(s, run[0]), run[1..]);
    }
  }

  lemma StartsSettled<O>(n: nat)
    ensures Settled<O>(Initially(n))
  {
  }

  /** In every run: a worker leaves an event only when all its Update calls have returned; if one of them failed,
      that worker has stopped and the group is canceled; and a worker stops, or the group is canceled, only
      because of that or of a cancellation from outside. */
  lemma FailuresAlways<O>(n: nat, run: seq<Action<O>>)
    requires Run(Initially<O>(n), run).Some?
    ensures var s := Run(Initially<O>(n), run).value;
            && |s.log.taker| == |s.log.taken|
            && (forall k: nat :: k in s.log.done ==> Closed(s, k))
            && (forall w: nat :: w < |s.workers| && s.workers[w].Stopped? ==> s.canceled)
            && (s.canceled ==> s.log.external || exists k: nat :: k in s.log.done && Failed(s.log, k))
  {
    hide Run, Initially, Closed, Failed, Exact;
    StartsExact<O>(n);
    StartsSettled<O>(n);
    SettledRun(Initially<O>(n), run);
    var s := Run(Initially<O>(n), run).value;
    assert forall w: nat :: w < |s.workers| ==> Aware(s, s.workers[w]);
  }
}
