/** What overlapping calls on one node can and cannot do: the pairing of
    network starts and stops, and calls that reach the network after its stop. */
module StopOverlaps {
  import opened Options
  import opened StopProtocol

  // ----- start calls -------------------------------------------------------

  /** Inside a start call, its failure handler included. */
  predicate InStartCall(pc: Pc) {
    || pc.StartLoadStopped? || pc.StartLoadStarted? || pc.StartNet?
    || pc.StartStoreStarted? || pc.FailStoreStarted? || pc.FailStoreStopped?
    || ((pc.StopLoad? || pc.StopExchange? || pc.StopNet?) && pc.caller == FailedStart)
  }

  function InStart(n: NodeId): Thread -> bool { (th: Thread) => InStartCall(th.pc) && th.cur == n }

  /** No two threads are inside a start call on the same node. */
  ghost predicate OneStarterEach(g: Global) {
    forall n :: n in g.nodes ==> Count(g.threads, InStart(n)) <= 1
  }

  lemma OneStarterIsSerialized(g: Global)
    requires OneStarterEach(g)
    ensures StartsSerialized(g)
  {
    forall n | n in g.nodes ensures Count(g.threads, Starting(n)) <= 1 {
      SubsetSize(Where(g.threads, Starting(n)), Where(g.threads, InStart(n)));
    }
  }

  ghost predicate SerializedRun(run: Run) {
    forall k :: 0 <= k <= |run| ==> OneStarterEach(Exec(INIT, run[..k]))
  }

  /** If callers never let two start calls on a node overlap, the network is
      started at most once, and by the time a wrapper has been destroyed it was
      stopped exactly as often as it was started. */
  lemma SerializedStartsArePaired(run: Run, n: NodeId)
    requires SerializedRun(run) && n in Exec(INIT, run).nodes
    ensures var nd := Exec(INIT, run).nodes[n]; nd.starts <= 1 && (nd.destroyed ==> nd.starts == nd.stops)
  {
    hide Exec, OneStarterEach, StartsSerialized;
    var g := Exec(INIT, run);
    forall k | 0 <= k <= |run| ensures StartsSerialized(Exec(INIT, run[..k])) {
      OneStarterIsSerialized(Exec(INIT, run[..k]));
    }
    StartInvokedAtMostOnce(run);
    ExecInv(run);
    assert NodeOk(g, n) && StartsOk(g, n);
    if g.nodes[n].destroyed { NobodyStarts(g, n); }
  }

  lemma NobodyStarts(g: Global, n: NodeId)
    requires Inv(g) && n in g.nodes && g.nodes[n].destroyed
    ensures Count(g.threads, Storing(n)) == 0
  {
    hide NodeOk, PcOk;
    forall t | t in g.threads ensures !Storing(n)(g.threads[t]) {
      if !g.threads[t].pc.Idle? { CurIsAlive(g, t); }
    }
    CountZero(g.threads, Storing(n));
  }

  lemma StartsStay(g: Global, t: Tid, a: Action, n: NodeId)
    requires n in g.nodes
    ensures n in Step(g, t, a).nodes && Step(g, t, a).nodes[n].starts >= g.nodes[n].starts
  {
  }

  lemma {:induction false} StartsStayForever(run: Run, more: Run, n: NodeId)
    requires n in Exec(INIT, run).nodes
    ensures n in Exec(INIT, run + more).nodes && Exec(INIT, run + more).nodes[n].starts >= Exec(INIT, run).nodes[n].starts
    decreases |more|
  {
    hide Step;
    if more == [] {
      assert run + more == run;
    } else {
      var last := more[|more| - 1];
      StartsStayForever(run, more[..|more| - 1], n);
      assert (run + more)[..|run + more| - 1] == run + more[..|more| - 1];
      StartsStay(Exec(INIT, run + more[..|more| - 1]), last.0, last.1, n);
    }
  }

  /** Once two start calls overlap between check and store, the schedule can go
      on so that, whatever happens afterwards, the network of that node has
      been started more often than it is ever stopped. */
  lemma OverlapBreaksPairing(run: Run, n: NodeId) returns (longer: Run)
    requires n in Exec(INIT, run).nodes && Count(Exec(INIT, run).threads, Starting(n)) >= 2
    ensures run <= longer
    ensures forall more: Run :: var g := Exec(INIT, longer + more);
      n in g.nodes && g.nodes[n].starts > g.nodes[n].stops
  {
    hide Exec;
    longer := OverlapAllowsSecondStart(run, n);
    forall more: Run
      ensures var g := Exec(INIT, longer + more); n in g.nodes && g.nodes[n].starts > g.nodes[n].stops
    {
      StartsStayForever(longer, more, n);
      StopInvokedAtMostOnce(longer + more, n);
    }
  }

  // ----- guarded calls and stops -------------------------------------------

  /** Thread `t` has passed the guard of its call on `n` and is about to use the network. */
  predicate AboutToUse(g: Global, t: Tid, n: NodeId) {
    t in g.threads && g.threads[t].pc.UseNet? && g.threads[t].cur == n
  }

  /** Thread `t` is inside `stop` on `n` and has not yet flipped the flag. */
  predicate AboutToFlip(g: Global, t: Tid, n: NodeId) {
    t in g.threads && (g.threads[t].pc.StopLoad? || g.threads[t].pc.StopExchange?) && g.threads[t].cur == n
  }

  ghost predicate UseMeetsStop(g: Global) {
    exists t, t', n :: AboutToUse(g, t, n) && AboutToFlip(g, t', n)
  }

  /** Whoever is about to use a node's network finds it not stopped. */
  ghost predicate UsesInTime(g: Global) {
    forall t, n :: AboutToUse(g, t, n) ==> n in g.nodes && !g.nodes[n].stopped && g.nodes[n].stops == 0
  }

  lemma LocalFlip(pc: Pc, nd: Node, ok: bool)
    requires PcOk(pc, nd) && !nd.stopped && Local(pc, nd, ok).1.stopped
    ensures pc.StopExchange?
  {
  }

  /** A step that flips `stopped` is an exchange. */
  lemma OnlyExchangeFlips(g: Global, t: Tid, a: Action, n: NodeId)
    requires Inv(g) && n in g.nodes && !g.nodes[n].stopped
    requires n in Step(g, t, a).nodes && Step(g, t, a).nodes[n].stopped
    ensures AboutToFlip(g, t, n)
  {
    hide NodeOk, Local, PcOk;
    if t in g.threads {
      var th := g.threads[t];
      assert ThreadOk(g, th);
      if IsLocal(th.pc) && th.cur == n && Local(th.pc, g.nodes[n], a.Advance? && a.ok).1.stopped {
        LocalFlip(th.pc, g.nodes[n], a.Advance? && a.ok);
      }
    }
  }

  /** A step by which a thread passes the guard finds the flag not set. */
  lemma GuardPassed(g: Global, t: Tid, a: Action, x: Tid, n: NodeId)
    requires Inv(g) && AboutToUse(Step(g, t, a), x, n)
    ensures n in g.nodes && n in Step(g, t, a).nodes
    ensures AboutToUse(g, x, n) || !Step(g, t, a).nodes[n].stopped
  {
    hide NodeOk;
    if t in g.threads { assert ThreadOk(g, g.threads[t]); }
    if x in g.threads { assert ThreadOk(g, g.threads[x]); }
  }

  lemma UsesStep(g: Global, t: Tid, a: Action)
    requires Inv(g) && Inv(Step(g, t, a)) && UsesInTime(g) && !UseMeetsStop(g)
    ensures UsesInTime(Step(g, t, a))
  {
    hide Step, Inv;
    var g' := Step(g, t, a);
    forall x, n | AboutToUse(g', x, n) ensures n in g'.nodes && !g'.nodes[n].stopped && g'.nodes[n].stops == 0 {
      GuardPassed(g, t, a, x, n);
      if g'.nodes[n].stopped {
        assert AboutToUse(g, x, n);
        OnlyExchangeFlips(g, t, a, n);
      }
      NoStopsUnlessStopped(g', n);
    }
  }

  lemma NoStopsUnlessStopped(g: Global, n: NodeId)
    requires Inv(g) && n in g.nodes
    ensures g.nodes[n].stops <= One(g.nodes[n].stopped)
  {
    assert NodeOk(g, n);
  }

  /** If no call ever stands between its guard and the network while a stop of
      the same node is about to flip the flag, no guarded call reaches the
      network after the stop. */
  lemma {:induction false} GuardedCallsAreInTime(run: Run)
    requires forall k :: 0 <= k <= |run| ==> !UseMeetsStop(Exec(INIT, run[..k]))
    ensures UsesInTime(Exec(INIT, run))
  {
    hide Step, Inv, UseMeetsStop;
    if run != [] {
      var before, last := run[..|run| - 1], run[|run| - 1];
      forall k | 0 <= k <= |before| ensures !UseMeetsStop(Exec(INIT, before[..k])) {
        assert before[..k] == run[..k];
      }
      GuardedCallsAreInTime(before);
      assert before[..|before|] == before;
      assert run[..|before|] == before;
      ExecInv(before);
      ExecInv(run);
      UsesStep(Exec(INIT, before), last.0, last.1);
    }
  }

  /** Lets `t'` take a step of its own on `n`, while `t` waits. */
  lemma Nudge(run: Run, t: Tid, t': Tid, n: NodeId) returns (longer: Run)
    requires AboutToUse(Exec(INIT, run), t, n) && t' != t
    requires var g := Exec(INIT, run); t' in g.threads && IsLocal(g.threads[t'].pc) && g.threads[t'].cur == n
    ensures run <= longer && n in Exec(INIT, run).nodes && AboutToUse(Exec(INIT, longer), t, n)
    ensures var g, g' := Exec(INIT, run), Exec(INIT, longer);
      && t' in g'.threads && n in g'.nodes && Inv(g')
      && g'.threads[t'] == g.threads[t'].(pc := Local(g.threads[t'].pc, g.nodes[n], true).0)
      && g'.nodes[n] == Local(g.threads[t'].pc, g.nodes[n], true).1
  {
    hide NodeOk, Local;
    ExecInv(run);
    assert ThreadOk(Exec(INIT, run), Exec(INIT, run).threads[t']);
    longer := run + [(t', Advance(true))];
    assert longer[..|longer| - 1] == run;
    ExecInv(longer);
  }

  /** Conversely, from every such meeting the schedule can go on so that the
      call is still to use the network when the network has been stopped. */
  lemma MeetingAllowsLateUse(run: Run, t: Tid, t': Tid, n: NodeId) returns (longer: Run)
    requires AboutToUse(Exec(INIT, run), t, n) && AboutToFlip(Exec(INIT, run), t', n)
    requires n in Exec(INIT, run).nodes && !Exec(INIT, run).nodes[n].stopped
    ensures run <= longer
    ensures var g := Exec(INIT, longer); AboutToUse(g, t, n) && n in g.nodes && g.nodes[n].stops == 1
  {
    hide Exec, NodeOk;
    ExecInv(run);
    var g := Exec(INIT, run);
    assert ThreadOk(g, g.threads[t]);
    NoStopsUnlessStopped(g, n);
    longer := run;
    if g.threads[t'].pc.StopLoad? { longer := Nudge(longer, t, t', n); }
    longer := Nudge(longer, t, t', n);
    longer := Nudge(longer, t, t', n);
  }

  // ----- a concrete late use -----------------------------------------------

  /** Node 0 is created and started by thread 1; thread 1 passes the guard of a
      join; thread 2 enters stop. */
  const MEETING: Run := CREATION +
    [(1, Call(Start, 7)), (1, GO), (1, GO), (1, GO), (1, GO), (1, GO),
     (1, Call(Use, 7)), (1, GO), (1, GO),
     (2, Call(Stop, 7)), (2, GO)]

  const STARTED := Node(true, false, 1, 1, 0, false)

  lemma StartSteps()
    ensures Step(Step(Step(Step(Step(Step(CREATED, 1, Call(Start, 7)), 1, GO), 1, GO), 1, GO), 1, GO), 1, GO)
         == Global(map[0 := STARTED], map[7 := 0], map[1 := Thread(Idle, 0, None)])
  {
    var g1 := Step(CREATED, 1, Call(Start, 7));
    assert g1 == Global(map[0 := FRESH.(refs := 2)], map[7 := 0], map[1 := Thread(StartLoadStopped, 0, None)]);
    var g3 := Step(Step(g1, 1, GO), 1, GO);
    assert g3 == g1.(threads := map[1 := Thread(StartNet, 0, None)]);
    var g5 := Step(Step(g3, 1, GO), 1, GO);
    assert g5 == Global(map[0 := STARTED.(refs := 2)], map[7 := 0], map[1 := Thread(Release, 0, None)]);
  }

  lemma MeetingSteps()
    ensures var g := Global(map[0 := STARTED], map[7 := 0], map[1 := Thread(Idle, 0, None)]);
      Step(Step(Step(Step(Step(g, 1, Call(Use, 7)), 1, GO), 1, GO), 2, Call(Stop, 7)), 2, GO)
      == Global(map[0 := STARTED.(refs := 3)], map[7 := 0],
                map[1 := Thread(UseNet, 0, None), 2 := Thread(StopLoad(ApiStop), 0, None)])
  {
    var g := Global(map[0 := STARTED], map[7 := 0], map[1 := Thread(Idle, 0, None)]);
    var g3 := Step(Step(Step(g, 1, Call(Use, 7)), 1, GO), 1, GO);
    assert g3 == Global(map[0 := STARTED.(refs := 2)], map[7 := 0], map[1 := Thread(UseNet, 0, None)]);
    assert Step(g3, 2, Call(Stop, 7))
        == Global(map[0 := STARTED.(refs := 3)], map[7 := 0],
                  map[1 := Thread(UseNet, 0, None), 2 := Thread(StopCheckStarted, 0, None)]);
  }

  lemma Met()
    ensures Exec(INIT, MEETING)
         == Global(map[0 := STARTED.(refs := 3)], map[7 := 0],
                   map[1 := Thread(UseNet, 0, None), 2 := Thread(StopLoad(ApiStop), 0, None)])
  {
    hide Step;
    Created();
    assert MEETING[..3] == CREATION && MEETING[..14] == MEETING;
    ExecNext(MEETING, 3);
    ExecNext(MEETING, 4);
    ExecNext(MEETING, 5);
    ExecNext(MEETING, 6);
    ExecNext(MEETING, 7);
    ExecNext(MEETING, 8);
    StartSteps();
    ExecNext(MEETING, 9);
    ExecNext(MEETING, 10);
    ExecNext(MEETING, 11);
    ExecNext(MEETING, 12);
    ExecNext(MEETING, 13);
    MeetingSteps();
  }

  /** A guarded call does reach the network after the network was stopped. */
  lemma LateUseHappens() returns (run: Run)
    ensures AboutToUse(Exec(INIT, run), 1, 0) && 0 in Exec(INIT, run).nodes && Exec(INIT, run).nodes[0].stops == 1
  {
    hide Exec;
    Met();
    run := MeetingAllowsLateUse(MEETING, 1, 2, 0);
  }
}
