/** Where listeners and subscription handles come from, over every serialized
    run, and what that means for the delivery of published messages. */
module NodeDelivery {
  import opened Options
  import opened NodeSpec
  import opened NodeLife
  import opened NodeRuns
  import opened PeerList
  import StreamPart

  /** The listener that a successful subscribe call installs. */
  ghost predicate Made(c: Call, l: Installed) {
    && c.NodeSubscribe? && StreamPart.Canonical(c.streamPart).Ok?
    && StreamPart.ListenerFor(c.node, StreamPart.Canonical(c.streamPart).value) == Some(l.filter)
    && l.userData == c.userData
  }

  /** `m` has the listeners and handles of `n`, except for what one subscribe
      call may have added. */
  ghost predicate Gains(n: Node, token: Token, c: Call, m: Node) {
    && (forall t :: t in m.listeners ==>
          (t in n.listeners && n.listeners[t] == m.listeners[t]) || (Installs(n, c) && t == token + c.drawn && Made(c, m.listeners[t])))
    && (forall h :: h in m.subscriptions ==> h in n.subscriptions || (c.NodeSubscribe? && c.handle == h))
  }

  lemma PartGains(urls: Urls, n: Node, token: Token, c: Call)
    requires NeedsRunning(c) && StreamPart.Canonical(c.streamPart).Ok? && FlagPhase(n) == Running
    requires c.NodeSubscribe? ==> c.callback
    ensures Gains(n, token, c, PartOp(urls, n, token, StreamPart.Canonical(c.streamPart).value, c).node)
  {
    hide ParsePeers, StreamPart.Canonical, StreamPart.MessageFor, StreamPart.ListenerFor;
  }

  lemma OpGains(urls: Urls, n: Node, token: Token, c: Call)
    requires IsNodeCall(c)
    ensures Gains(n, token, c, NodeOp(urls, n, token, c).node)
  {
    hide PartOp, StreamPart.Canonical, Made;
    if NeedsRunning(c) && Guard(n).None? && (c.NodeSubscribe? ==> c.callback) && StreamPart.Canonical(c.streamPart).Ok? {
      PartGains(urls, n, token, c);
    }
  }

  /** The wrapper that a node call works on. */
  ghost predicate Targets(lib: Library, c: Call, i: nat) {
    IsNodeCall(c) && LeadsTo(lib, c.node, i)
  }

  /** How one step affects one wrapper: a node call gives its target new
      listeners and handles, nothing else does. */
  ghost predicate GainsStep(lib: Library, c: Call, lib': Library, i: nat) {
    i < |lib'.wrappers| ==>
      && (i >= |lib.wrappers| ==> lib'.wrappers[i].listeners == map[] && lib'.wrappers[i].subscriptions == map[])
      && (i < |lib.wrappers| && Targets(lib, c, i) ==> Gains(lib.wrappers[i], lib.nextToken, c, lib'.wrappers[i]))
      && (i < |lib.wrappers| && !Targets(lib, c, i) ==> Loses(lib.wrappers[i], lib'.wrappers[i]))
  }

  ghost predicate Loses(n: Node, m: Node) {
    m.subscriptions == n.subscriptions && (m.listeners == n.listeners || m.listeners == map[])
  }

  lemma DestroyLoses(n: Node, out: StopOutcome)
    ensures Loses(n, Destroy(n, out))
  {
  }

  lemma ActGains(urls: Urls, lib: Library, c: Call, i: nat)
    requires Registered(lib) && lib.api.Some? && MakesResult(c)
    ensures GainsStep(lib, c, Act(urls, lib, c).0, i)
  {
    hide NodeOp, ClientOp, ParsePeers, StreamPart.IsEthereumAddress, Destroy, Gains;
    if Targets(lib, c, i) {
      OpGains(urls, lib.wrappers[i], lib.nextToken, c);
    } else if i < |lib.wrappers| {
      forall out { DestroyLoses(lib.wrappers[i], out); }
    }
  }

  lemma StepGains(urls: Urls, lib: Library, c: Call, ptr: Ptr, i: nat)
    requires LibInv(lib)
    ensures GainsStep(lib, c, Step(urls, lib, c, ptr).0, i)
  {
    hide NodeInv, Act, Destroy, Gains;
    if MakesResult(c) {
      InitializedKeeps(lib);
      ActGains(urls, Initialized(lib), c, i);
      assert Targets(Initialized(lib), c, i) <==> Targets(lib, c, i);
    } else if i < |lib.wrappers| {
      forall out { DestroyLoses(lib.wrappers[i], out); }
    }
  }

  // ----- delivery ----------------------------------------------------------

  /** The k-th call subscribed on wrapper `i` and installed the listener with
      token `t`. */
  ghost predicate InstalledBy(urls: Urls, run: Run, k: nat, i: nat, t: Token) {
    && k < |run|
    && var lib := Exec(urls, run[..k]);
       Targets(lib, run[k].0, i) && Installs(lib.wrappers[i], run[k].0) && lib.nextToken + run[k].0.drawn == t
  }

  lemma InstalledPrefix(urls: Urls, run: Run, k: nat, i: nat, t: Token)
    requires run != [] && InstalledBy(urls, run[..|run| - 1], k, i, t)
    ensures InstalledBy(urls, run, k, i, t) && run[k] == run[..|run| - 1][k]
  {
    hide Exec, Installs;
    assert run[..|run| - 1][..k] == run[..k];
  }

  /** Every listener goes back to one subscribe call of the run. */
  lemma {:induction false} ListenerHasOrigin(urls: Urls, run: Run, i: nat, t: Token) returns (k: nat)
    requires i < |Exec(urls, run).wrappers| && t in Exec(urls, run).wrappers[i].listeners
    ensures InstalledBy(urls, run, k, i, t) && Made(run[k].0, Exec(urls, run).wrappers[i].listeners[t])
  {
    hide Step, LibInv, Made, Installs;
    var before, last := run[..|run| - 1], |run| - 1;
    var lib := Exec(urls, before);
    RunInv(urls, before);
    StepGains(urls, lib, run[last].0, run[last].1, i);
    if t in lib.wrappers[i].listeners && lib.wrappers[i].listeners[t] == Exec(urls, run).wrappers[i].listeners[t] {
      k := ListenerHasOrigin(urls, before, i, t);
      InstalledPrefix(urls, run, k, i, t);
    } else {
      k := last;
    }
  }

  /** In every run, a message published under spelling `a` and dispatched to a
      node fires exactly those listeners whose subscribe call used a spelling
      of the same stream part, and passes on that node's handle, the published
      bytes, that part's canonical id and that call's data. */
  lemma Delivery(urls: Urls, run: Run, i: nat, t: Token, a: string, content: seq<bv8>) returns (k: nat)
    requires i < |Exec(urls, run).wrappers| && t in Exec(urls, run).wrappers[i].listeners
    requires StreamPart.Canonical(a).Ok?
    ensures InstalledBy(urls, run, k, i, t) && run[k].0.NodeSubscribe?
    ensures var n, b := Exec(urls, run).wrappers[i], run[k].0.streamPart;
      && StreamPart.Canonical(b).Ok? && n.listeners[t].userData == run[k].0.userData
      && StreamPart.MessageFor(StreamPart.Canonical(a).value, content).Some?
      && StreamPart.Dispatch(n.listeners[t].filter, StreamPart.MessageFor(StreamPart.Canonical(a).value, content).value)
         == if StreamPart.Parse(a) == StreamPart.Parse(b)
            then Some(StreamPart.Delivery(n.handle, StreamPart.Canonical(b).value, content)) else None
  {
    hide Exec, Installs, StreamPart.Canonical, StreamPart.MessageFor, StreamPart.ListenerFor, StreamPart.Parse, StreamPart.Dispatch;
    k := ListenerHasOrigin(urls, run, i, t);
    StreamPart.PublishReachesSubscription(a, run[k].0.streamPart, run[k].0.node, content);
    TargetHandle(urls, run, k, i);
  }

  /** A call on a wrapper was made with the handle the wrapper always has. */
  lemma TargetHandle(urls: Urls, run: Run, k: nat, i: nat)
    requires k < |run| && Targets(Exec(urls, run[..k]), run[k].0, i)
    ensures i < |Exec(urls, run).wrappers| && Exec(urls, run).wrappers[i].handle == run[k].0.node
  {
    hide Exec, NodeInv;
    RunInv(urls, run[..k]);
    History(urls, run, k);
  }

  // ----- unsubscribing twice -----------------------------------------------

  /** A subscription handle that is unknown at some point of a run stays
      unknown until a subscribe call draws it again, so that every unsubscribe
      with it reports this and changes nothing else. */
  lemma {:induction false} UnknownUntilDrawnAgain(urls: Urls, run: Run, k: nat, i: nat, sub: Handle)
    requires k <= |run| && i < |Exec(urls, run[..k]).wrappers| && sub !in Exec(urls, run[..k]).wrappers[i].subscriptions
    requires forall j :: k <= j < |run| ==> !(run[j].0.NodeSubscribe? && run[j].0.handle == sub)
    ensures i < |Exec(urls, run).wrappers| && sub !in Exec(urls, run).wrappers[i].subscriptions
    decreases |run|
  {
    hide Step, LibInv;
    History(urls, run, k);
    if k == |run| {
      assert run[..k] == run;
    } else {
      var before, last := run[..|run| - 1], |run| - 1;
      assert before[..k] == run[..k];
      UnknownUntilDrawnAgain(urls, before, k, i, sub);
      RunInv(urls, before);
      StepGains(urls, Exec(urls, before), run[last].0, run[last].1, i);
    }
  }

  lemma UnknownIsReported(urls: Urls, lib: Library, h: Handle, i: nat, sub: Handle, ptr: Ptr)
    requires LeadsTo(lib, h, i) && sub !in lib.wrappers[i].subscriptions
    ensures Step(urls, lib, NodeUnsubscribe(h, sub), ptr) == Publish(lib, ptr, Error(SUBSCRIPTION_NOT_FOUND))
  {
    assert lib.wrappers[i := lib.wrappers[i]] == lib.wrappers;
    assert Initialized(lib) == lib;
  }

  /** The two together: after an unsubscribe, the handle is reported as unknown
      however the run goes on, unless it is drawn again. */
  lemma SecondUnsubscribe(urls: Urls, run: Run, k: nat, i: nat, h: Handle, ptr: Ptr)
    requires k < |run| && run[k].0.NodeUnsubscribe? && LeadsTo(Exec(urls, run[..k]), run[k].0.node, i)
    requires forall j :: k < j < |run| ==> !(run[j].0.NodeSubscribe? && run[j].0.handle == run[k].0.subscription)
    requires LeadsTo(Exec(urls, run), h, i)
    ensures Step(urls, Exec(urls, run), NodeUnsubscribe(h, run[k].0.subscription), ptr)
         == Publish(Exec(urls, run), ptr, Error(SUBSCRIPTION_NOT_FOUND))
  {
    hide Exec, Step, Publish;
    var lib, sub := Exec(urls, run[..k]), run[k].0.subscription;
    ExecSnoc(urls, run, k);
    UnsubscribeForgets(urls, lib, run[k].0, run[k].1, i);
    UnknownUntilDrawnAgain(urls, run, k + 1, i, sub);
    UnknownIsReported(urls, Exec(urls, run), h, i, sub, ptr);
  }

  lemma UnsubscribeForgets(urls: Urls, lib: Library, c: Call, ptr: Ptr, i: nat)
    requires c.NodeUnsubscribe? && LeadsTo(lib, c.node, i)
    ensures var lib' := Step(urls, lib, c, ptr).0;
      i < |lib'.wrappers| && c.subscription !in lib'.wrappers[i].subscriptions
  {
  }
}
