/** What calls have achieved when they return, in every interleaving: failed
    and successful starts, and stops; and what a set flag rules out for good. */
module StopEffects {
  import opened Options
  import opened StopProtocol
  import opened StopOverlaps

  /** Thread `t` is about to invoke the network start of `n`. */
  predicate AboutToStart(g: Global, t: Tid, n: NodeId) {
    t in g.threads && g.threads[t].pc.StartNet? && g.threads[t].cur == n
  }

  predicate IsStarted(g: Global, n: NodeId) { n in g.nodes && g.nodes[n].started }
  predicate IsStopped(g: Global, n: NodeId) { n in g.nodes && g.nodes[n].stopped }

  /** Flags are never taken back, and other threads do not move this one. */
  lemma FlagsStay(g: Global, t: Tid, a: Action, n: NodeId)
    ensures IsStarted(g, n) ==> IsStarted(Step(g, t, a), n)
    ensures IsStopped(g, n) ==> IsStopped(Step(g, t, a), n)
  {
  }

  lemma OthersWait(g: Global, t: Tid, a: Action, x: Tid)
    requires x != t && x in g.threads
    ensures x in Step(g, t, a).threads && Step(g, t, a).threads[x] == g.threads[x]
  {
  }

  lemma Continue(run: Run, last: (Tid, Action))
    ensures Exec(INIT, run + [last]) == Step(Exec(INIT, run), last.0, last.1)
  {
    assert (run + [last])[..|run|] == run;
  }

  lemma ContinueMore(run: Run, more: Run)
    requires more != []
    ensures run + more[..|more| - 1] + [more[|more| - 1]] == run + more
  {
    assert more[..|more| - 1] + [more[|more| - 1]] == more;
  }

  // ----- a failed start ----------------------------------------------------

  /** From the network start on, on the way through the failure handler. */
  predicate HandlesFailure(g: Global, t: Tid, n: NodeId) {
    t in g.threads && InStart(n)(g.threads[t]) && (g.threads[t].pc.FailStoreStarted? || g.threads[t].pc.FailStoreStopped?
      || g.threads[t].pc.StopLoad? || g.threads[t].pc.StopExchange? || g.threads[t].pc.StopNet?)
  }

  lemma FailureStep(g: Global, x: Tid, a: Action, t: Tid, n: NodeId)
    requires Inv(g) && (IsStopped(g, n) || HandlesFailure(g, t, n))
    ensures IsStopped(Step(g, x, a), n) || HandlesFailure(Step(g, x, a), t, n)
  {
    hide NodeOk;
    FlagsStay(g, x, a, n);
    if t in g.threads {
      assert ThreadOk(g, g.threads[t]);
      if x != t { OthersWait(g, x, a, t); }
    }
  }

  lemma FailureBegins(g: Global, t: Tid, n: NodeId)
    requires Inv(g) && AboutToStart(g, t, n)
    ensures HandlesFailure(Step(g, t, Advance(false)), t, n)
  {
    hide NodeOk;
    assert ThreadOk(g, g.threads[t]);
  }

  lemma {:induction false} FailureEnds(run: Run, t: Tid, n: NodeId, more: Run)
    requires AboutToStart(Exec(INIT, run), t, n)
    ensures var g := Exec(INIT, run + [(t, Advance(false))] + more); IsStopped(g, n) || HandlesFailure(g, t, n)
    decreases |more|
  {
    hide Step, Inv, IsStopped, HandlesFailure;
    var failed := run + [(t, Advance(false))];
    if more == [] {
      ExecInv(run);
      Continue(run, (t, Advance(false)));
      FailureBegins(Exec(INIT, run), t, n);
      assert failed + more == failed;
    } else {
      var last := more[|more| - 1];
      FailureEnds(run, t, n, more[..|more| - 1]);
      ContinueMore(failed, more);
      Continue(failed + more[..|more| - 1], last);
      ExecInv(failed + more[..|more| - 1]);
      FailureStep(Exec(INIT, failed + more[..|more| - 1]), last.0, last.1, t, n);
    }
  }

  /** If a network start throws, then in every continuation the node is stopped
      by the time the call has left its start phase, and its one teardown has
      been made or is being made. */
  lemma FailedStartStops(run: Run, t: Tid, n: NodeId, more: Run)
    requires AboutToStart(Exec(INIT, run), t, n)
    requires !InStart(n)(ThreadOf(Exec(INIT, run + [(t, Advance(false))] + more), t))
    ensures var g := Exec(INIT, run + [(t, Advance(false))] + more);
      IsStopped(g, n) && g.nodes[n].stops + Count(g.threads, Pending(n)) == 1
  {
    hide Exec, Count;
    var all := run + [(t, Advance(false))] + more;
    FailureEnds(run, t, n, more);
    ExecInv(all);
    assert NodeOk(Exec(INIT, all), n);
  }

  /** In every interleaving a stopped node is a started one, so that the test of
      `stopped` before a start only chooses the error; and the store of
      `stopped` that ends the handler finds it set. */
  lemma StoppedIsStarted(run: Run, n: NodeId, t: Tid)
    ensures IsStopped(Exec(INIT, run), n) ==> IsStarted(Exec(INIT, run), n)
    ensures t in Exec(INIT, run).threads && Exec(INIT, run).threads[t].pc.FailStoreStopped? ==>
      IsStopped(Exec(INIT, run), Exec(INIT, run).threads[t].cur)
  {
    hide Exec;
    var g := Exec(INIT, run);
    ExecInv(run);
    if n in g.nodes { assert NodeOk(g, n); }
    if t in g.threads { assert ThreadOk(g, g.threads[t]); }
  }

  // ----- what a set flag rules out -----------------------------------------

  lemma {:induction false} FlagsStayForever(run: Run, more: Run, n: NodeId)
    ensures IsStarted(Exec(INIT, run), n) ==> IsStarted(Exec(INIT, run + more), n)
    ensures IsStopped(Exec(INIT, run), n) ==> IsStopped(Exec(INIT, run + more), n)
    decreases |more|
  {
    hide Step, IsStarted, IsStopped;
    if more == [] {
      assert run + more == run;
    } else {
      var last := more[|more| - 1];
      FlagsStayForever(run, more[..|more| - 1], n);
      ContinueMore(run, more);
      Continue(run + more[..|more| - 1], last);
      FlagsStay(Exec(INIT, run + more[..|more| - 1]), last.0, last.1, n);
    }
  }

  /** On a stopped node no thread newly gets as far as using the network. */
  lemma {:induction false} StoppedBarsUse(run: Run, more: Run, x: Tid, n: NodeId)
    requires IsStopped(Exec(INIT, run), n) && !AboutToUse(Exec(INIT, run), x, n)
    ensures !AboutToUse(Exec(INIT, run + more), x, n)
    decreases |more|
  {
    hide Step, Inv, AboutToUse;
    if more == [] {
      assert run + more == run;
    } else {
      var last := more[|more| - 1];
      var before := run + more[..|more| - 1];
      StoppedBarsUse(run, more[..|more| - 1], x, n);
      FlagsStayForever(run, more, n);
      ContinueMore(run, more);
      Continue(before, last);
      ExecInv(before);
      if AboutToUse(Exec(INIT, run + more), x, n) { GuardPassed(Exec(INIT, before), last.0, last.1, x, n); }
    }
  }

  /** So after a failed start no later call uses the network of that node. */
  lemma NoUseAfterFailedStart(run: Run, t: Tid, n: NodeId, more: Run, x: Tid, evenMore: Run)
    requires AboutToStart(Exec(INIT, run), t, n)
    requires !InStart(n)(ThreadOf(Exec(INIT, run + [(t, Advance(false))] + more), t))
    requires !AboutToUse(Exec(INIT, run + [(t, Advance(false))] + more), x, n)
    ensures !AboutToUse(Exec(INIT, run + [(t, Advance(false))] + more + evenMore), x, n)
  {
    hide Exec;
    FailedStartStops(run, t, n, more);
    StoppedBarsUse(run + [(t, Advance(false))] + more, evenMore, x, n);
  }

  lemma StartReached(g: Global, t: Tid, a: Action, x: Tid, n: NodeId)
    requires Inv(g) && AboutToStart(Step(g, t, a), x, n) && !AboutToStart(g, x, n)
    ensures !IsStarted(g, n)
  {
    hide NodeOk;
    if t in g.threads { assert ThreadOk(g, g.threads[t]); }
    if x in g.threads {
      assert ThreadOk(g, g.threads[x]);
      if x != t { OthersWait(g, t, a, x); }
    }
  }

  /** On a node marked as started, and so on a stopped one, no thread newly
      gets as far as starting the network. */
  lemma {:induction false} StartedBarsStart(run: Run, more: Run, x: Tid, n: NodeId)
    requires IsStarted(Exec(INIT, run), n) && !AboutToStart(Exec(INIT, run), x, n)
    ensures !AboutToStart(Exec(INIT, run + more), x, n)
    decreases |more|
  {
    hide Step, Inv, AboutToStart, IsStarted;
    if more == [] {
      assert run + more == run;
    } else {
      var last := more[|more| - 1];
      var before := run + more[..|more| - 1];
      StartedBarsStart(run, more[..|more| - 1], x, n);
      FlagsStayForever(run, more[..|more| - 1], n);
      ContinueMore(run, more);
      Continue(before, last);
      ExecInv(before);
      if AboutToStart(Exec(INIT, run + more), x, n) { StartReached(Exec(INIT, before), last.0, last.1, x, n); }
    }
  }

  // ----- a successful start and a stop -------------------------------------

  predicate AboutToStore(g: Global, t: Tid, n: NodeId) {
    t in g.threads && g.threads[t].pc.StartStoreStarted? && g.threads[t].cur == n
  }

  /** Inside a stop call that has found the node started. */
  predicate InStopCall(g: Global, t: Tid, n: NodeId) {
    t in g.threads && g.threads[t].cur == n
    && g.threads[t].pc in {StopLoad(ApiStop), StopExchange(ApiStop), StopNet(ApiStop)}
  }

  lemma EffectStep(g: Global, x: Tid, a: Action, t: Tid, n: NodeId)
    requires Inv(g)
    ensures IsStarted(g, n) || AboutToStore(g, t, n) ==> IsStarted(Step(g, x, a), n) || AboutToStore(Step(g, x, a), t, n)
    ensures IsStopped(g, n) || InStopCall(g, t, n) ==> IsStopped(Step(g, x, a), n) || InStopCall(Step(g, x, a), t, n)
  {
    hide NodeOk;
    FlagsStay(g, x, a, n);
    if t in g.threads {
      assert ThreadOk(g, g.threads[t]);
      if x != t { OthersWait(g, x, a, t); }
    }
  }

  lemma EffectBegins(g: Global, t: Tid, n: NodeId)
    requires Inv(g) && t in g.threads && g.threads[t].cur == n
    ensures g.threads[t].pc.StartNet? ==> AboutToStore(Step(g, t, Advance(true)), t, n)
    ensures g.threads[t].pc.StopCheckStarted? && IsStarted(g, n) ==> InStopCall(Step(g, t, Advance(true)), t, n)
  {
    hide NodeOk;
    assert ThreadOk(g, g.threads[t]);
  }

  lemma {:induction false} EffectEnds(run: Run, t: Tid, n: NodeId, more: Run)
    ensures var g, g' := Exec(INIT, run), Exec(INIT, run + more);
      && (IsStarted(g, n) || AboutToStore(g, t, n) ==> IsStarted(g', n) || AboutToStore(g', t, n))
      && (IsStopped(g, n) || InStopCall(g, t, n) ==> IsStopped(g', n) || InStopCall(g', t, n))
    decreases |more|
  {
    hide Step, Inv, IsStarted, IsStopped, AboutToStore, InStopCall;
    if more == [] {
      assert run + more == run;
    } else {
      var last := more[|more| - 1];
      EffectEnds(run, t, n, more[..|more| - 1]);
      ContinueMore(run, more);
      Continue(run + more[..|more| - 1], last);
      ExecInv(run + more[..|more| - 1]);
      EffectStep(Exec(INIT, run + more[..|more| - 1]), last.0, last.1, t, n);
    }
  }

  /** If the network start returns, the node is marked as started by the time
      the call has left its start phase. */
  lemma SuccessfulStartMarks(run: Run, t: Tid, n: NodeId, more: Run)
    requires AboutToStart(Exec(INIT, run), t, n)
    requires !InStart(n)(ThreadOf(Exec(INIT, run + [(t, Advance(true))] + more), t))
    ensures IsStarted(Exec(INIT, run + [(t, Advance(true))] + more), n)
  {
    hide Exec;
    ExecInv(run);
    Continue(run, (t, Advance(true)));
    EffectBegins(Exec(INIT, run), t, n);
    EffectEnds(run + [(t, Advance(true))], t, n, more);
  }

  /** A stop call that finds the node started has stopped it by the time it is
      through, and the one network stop has been made or is being made. */
  lemma StopTakesEffect(run: Run, t: Tid, n: NodeId, more: Run)
    requires var g := Exec(INIT, run); t in g.threads && g.threads[t] == Thread(StopCheckStarted, n, None) && IsStarted(g, n)
    requires !InStopCall(Exec(INIT, run + [(t, Advance(true))] + more), t, n)
    ensures var g := Exec(INIT, run + [(t, Advance(true))] + more);
      IsStopped(g, n) && g.nodes[n].stops + Count(g.threads, Pending(n)) == 1
  {
    hide Exec, Count;
    var all := run + [(t, Advance(true))] + more;
    ExecInv(run);
    Continue(run, (t, Advance(true)));
    EffectBegins(Exec(INIT, run), t, n);
    EffectEnds(run + [(t, Advance(true))], t, n, more);
    ExecInv(all);
    assert NodeOk(Exec(INIT, all), n);
  }
}
