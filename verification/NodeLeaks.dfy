/** Where the library leaves something behind: listeners that no handle leads
    to, nodes under handle 0, and an error code that is lost; each with a run
    in which it happens. */
module NodeLeaks {
  import opened Options
  import opened Strings
  import opened PeerList
  import opened NodeSpec
  import opened NodeLife
  import opened NodeRuns
  import opened NodeLedgers
  import opened NodeDelivery
  import opened NodeWrapper
  import StreamPart

  // ----- orphaned listeners ------------------------------------------------

  /** A listener that no subscription handle leads to. */
  ghost predicate Orphan(n: Node, t: Token) {
    t in n.listeners && t !in n.subscriptions.Values
  }

  /** `m` maps handles to tokens of `n` or to newer ones, and as long as it
      runs it has all listeners that `n` had no handle for. */
  ghost predicate Sheds(n: Node, token: Token, m: Node) {
    && (forall h :: h in m.subscriptions ==> m.subscriptions[h] in n.subscriptions.Values || m.subscriptions[h] >= token)
    && (FlagPhase(m) == Running ==> forall t :: Orphan(n, t) ==> t in m.listeners)
  }

  lemma PartSheds(urls: Urls, n: Node, token: Token, part: string, c: Call)
    requires NeedsRunning(c)
    ensures Sheds(n, token, PartOp(urls, n, token, part, c).node)
  {
    hide Sheds, PartOp;
    if c.NodeSubscribe? {
      SubscribeSheds(urls, n, token, part, c);
    } else {
      OthersKeepTables(urls, n, token, part, c);
      SameTablesShed(n, token, PartOp(urls, n, token, part, c).node);
    }
  }

  lemma OthersKeepTables(urls: Urls, n: Node, token: Token, part: string, c: Call)
    requires NeedsRunning(c) && !c.NodeSubscribe?
    ensures var m := PartOp(urls, n, token, part, c).node; m.listeners == n.listeners && m.subscriptions == n.subscriptions
  {
    hide JoinOp, PublishOp, SetProxiesOp;
    if c.NodeJoin? { JoinKeepsTables(urls, n, token, part, c); }
    if c.NodePublish? { PublishKeepsTables(n, token, part, c); }
    if c.NodeSetProxies? { SetProxiesKeepsTables(urls, n, token, part, c); }
  }

  lemma JoinKeepsTables(urls: Urls, n: Node, token: Token, part: string, c: Call)
    requires c.NodeJoin?
    ensures var m := JoinOp(urls, n, token, part, c).node; m.listeners == n.listeners && m.subscriptions == n.subscriptions
  {
    hide ParsePeers;
  }

  lemma PublishKeepsTables(n: Node, token: Token, part: string, c: Call)
    requires c.NodePublish?
    ensures var m := PublishOp(n, token, part, c).node; m.listeners == n.listeners && m.subscriptions == n.subscriptions
  {
    hide StreamPart.MessageFor;
  }

  lemma SetProxiesKeepsTables(urls: Urls, n: Node, token: Token, part: string, c: Call)
    requires c.NodeSetProxies?
    ensures var m := SetProxiesOp(urls, n, token, part, c).node; m.listeners == n.listeners && m.subscriptions == n.subscriptions
  {
    hide ParsePeers;
  }

  lemma SubscribeSheds(urls: Urls, n: Node, token: Token, part: string, c: Call)
    requires c.NodeSubscribe?
    ensures Sheds(n, token, PartOp(urls, n, token, part, c).node)
  {
    hide Sheds, AddSubscription, StreamPart.ListenerFor;
    var l := StreamPart.ListenerFor(c.node, part);
    var joined := Log(n, [NetJoin(part)]);
    SameTablesShed(n, token, joined);
    if l.Some? { AddSheds(n, token, joined, token + c.drawn, c.handle, Installed(l.value, c.userData)); }
  }

  lemma SameTablesShed(n: Node, token: Token, m: Node)
    requires m.listeners == n.listeners && m.subscriptions == n.subscriptions
    ensures Sheds(n, token, m)
  {
  }

  lemma AddSheds(n: Node, token: Token, m: Node, t: Token, h: Handle, l: Installed)
    requires m.listeners == n.listeners && m.subscriptions == n.subscriptions && token <= t
    ensures Sheds(n, token, AddSubscription(m, h, t, l))
  {
  }

  lemma RemoveSheds(n: Node, token: Token, h: Handle)
    requires h in n.subscriptions
    ensures Sheds(n, token, RemoveSubscription(n, h))
  {
  }

  lemma StopSheds(n: Node, token: Token, out: StopOutcome)
    ensures Sheds(n, token, StopNode(n, out))
  {
  }

  lemma StartSheds(n: Node, token: Token, out: StartOutcome)
    ensures Sheds(n, token, StartNode(n, out))
  {
  }

  lemma OpSheds(urls: Urls, n: Node, token: Token, c: Call)
    requires IsNodeCall(c)
    ensures Sheds(n, token, NodeOp(urls, n, token, c).node)
  {
    hide PartOp, StreamPart.Canonical, Sheds, StartNode, StopNode, RemoveSubscription;
    SameTablesShed(n, token, n);
    if c.NodeStart? { StartSheds(n, token, c.start); }
    if c.NodeStop? { StopSheds(n, token, c.stop); }
    if c.NodeUnsubscribe? && c.subscription in n.subscriptions { RemoveSheds(n, token, c.subscription); }
    if NeedsRunning(c) && StreamPart.Canonical(c.streamPart).Ok? {
      PartSheds(urls, n, token, StreamPart.Canonical(c.streamPart).value, c);
    }
  }

  lemma DestroySheds(n: Node, token: Token, out: StopOutcome)
    ensures Sheds(n, token, Destroy(n, out))
  {
  }

  lemma ActSheds(urls: Urls, lib: Library, c: Call, i: nat)
    requires lib.api.Some? && MakesResult(c) && i < |lib.wrappers|
    ensures i < |Act(urls, lib, c).0.wrappers| && Sheds(lib.wrappers[i], lib.nextToken, Act(urls, lib, c).0.wrappers[i])
  {
    hide NodeOp, ClientOp, ParsePeers, StreamPart.IsEthereumAddress, Destroy, Sheds;
    SameTablesShed(lib.wrappers[i], lib.nextToken, lib.wrappers[i]);
    if IsNodeCall(c) {
      OpSheds(urls, lib.wrappers[i], lib.nextToken, c);
    } else {
      forall out { DestroySheds(lib.wrappers[i], lib.nextToken, out); }
    }
  }

  lemma StepSheds(urls: Urls, lib: Library, c: Call, ptr: Ptr, i: nat)
    requires i < |lib.wrappers|
    ensures i < |Step(urls, lib, c, ptr).0.wrappers|
    ensures Sheds(lib.wrappers[i], lib.nextToken, Step(urls, lib, c, ptr).0.wrappers[i])
  {
    hide Act, Destroy, Sheds;
    SameTablesShed(lib.wrappers[i], lib.nextToken, lib.wrappers[i]);
    if MakesResult(c) {
      ActSheds(urls, Initialized(lib), c, i);
    } else if c.CleanupLibrary? {
      DestroySheds(lib.wrappers[i], lib.nextToken, c.stops(lib.wrappers[i].handle));
    }
  }

  lemma AtLeastRunning(n: Node, token: Token, t: Token)
    requires NodeInv(n, token) && t in n.listeners
    ensures t < token && FlagPhase(n) != New
  {
  }

  /** Once a listener is orphaned, no handle ever leads to it again, and it
      stays installed for as long as the node runs. */
  lemma {:induction false} OrphanForever(urls: Urls, run: Run, k: nat, i: nat, t: Token)
    requires k <= |run| && i < |Exec(urls, run[..k]).wrappers| && Orphan(Exec(urls, run[..k]).wrappers[i], t)
    ensures i < |Exec(urls, run).wrappers|
    ensures var n := Exec(urls, run).wrappers[i];
      t !in n.subscriptions.Values && (FlagPhase(n) == Running ==> t in n.listeners)
    decreases |run|
  {
    hide Step, NodeInv;
    History(urls, run, k);
    if k == |run| {
      assert run[..k] == run;
    } else {
      var before, last := run[..|run| - 1], |run| - 1;
      assert before[..k] == run[..k];
      OrphanForever(urls, before, k, i, t);
      History(urls, before, k);
      RunInv(urls, run[..k]);
      RunInv(urls, before);
      AtLeastRunning(Exec(urls, run[..k]).wrappers[i], Exec(urls, run[..k]).nextToken, t);
      StepSheds(urls, Exec(urls, before), run[last].0, run[last].1, i);
      StepKeeps(urls, Exec(urls, before), run[last].0, run[last].1);
    }
  }

  // ----- a node with one subscription --------------------------------------

  function Address(): string { "0x" + seq(40, _ => '1') }

  const PART := "a#0"

  function NewCall(h: Handle): Call { NodeNew(Address(), [], 0, true, h, StopReturned) }
  function StartCall(h: Handle): Call { NodeStart(h, StartOutcome(true, true, StopReturned)) }
  function SubscribeCall(h: Handle, userData: nat): Call { NodeSubscribe(h, PART, true, userData, 0, 5, true) }

  lemma PartIsCanonical()
    ensures StreamPart.Canonical(PART) == StreamPart.Ok(PART)
    ensures forall h :: StreamPart.ListenerFor(h, PART) == Some(StreamPart.Listener(h, PART, "a", 0))
  {
    hide StreamPart.Parse;
    assert "a" + "#" + "0" == PART;
    StreamPart.ParseOfDigits("a", "0");
    assert "0"[..0] == [];
    assert NumberOf("0") == 0 && Decimal(0) == "0";
    assert StreamPart.IsStreamId("a");
  }

  /** A library with one node, which is alive. */
  function With(h: Handle, n: Node, token: Token, results: map<Ptr, Result>): Library {
    Library(Some(Api(map[h := 0], map[], results)), token, [n])
  }

  lemma StepNew(urls: Urls, h: Handle, ptr: Ptr)
    ensures Step(urls, INITIAL, NewCall(h), ptr) == Reply((With(h, NewNode(h, true), 1, map[]), Finish(true, h)), ptr)
  {
    hide StreamPart.IsEthereumAddress;
    GoodAddress();
    var lib := Initialized(INITIAL);
    assert ParsePeers(urls, [], INVALID_ENTRY_POINT_URL) == Parsed([]);
    assert lib.wrappers + [NewNode(h, true)] == [NewNode(h, true)];
    assert lib.api.value.nodes[h := 0] == map[h := 0];
    assert NodeNewAct(urls, lib, lib.api.value, NewCall(h)) == (With(h, NewNode(h, true), 1, map[]), Finish(true, h));
  }

  lemma GoodAddress()
    ensures StreamPart.IsEthereumAddress(Address())
  {
  }

  lemma StepOn(urls: Urls, h: Handle, n: Node, token: Token, results: map<Ptr, Result>, c: Call, ptr: Ptr)
    requires IsNodeCall(c) && c.node == h
    ensures var o := NodeOp(urls, n, token, c);
      Step(urls, With(h, n, token, results), c, ptr) == Reply((With(h, o.node, o.nextToken, results), o.answer), ptr)
  {
    hide NodeOp, Reply;
    var o := NodeOp(urls, n, token, c);
    assert [n][0 := o.node] == [o.node];
  }

  function Started(h: Handle): Node { StartTried(NewNode(h, true), StartOutcome(true, true, StopReturned)) }

  /** The first subscription: token 1 under handle 5. */
  function Subscribed(h: Handle, userData: nat): Node {
    AddSubscription(Log(Started(h), [NetJoin(PART)]), 5, 1, Installed(StreamPart.Listener(h, PART, "a", 0), userData))
  }

  lemma OpSubscribe(urls: Urls, n: Node, token: Token, h: Handle, userData: nat)
    requires FlagPhase(n) == Running
    ensures NodeOp(urls, n, token, SubscribeCall(h, userData))
         == Outcome(AddSubscription(Log(n, [NetJoin(PART)]), 5, token, Installed(StreamPart.Listener(h, PART, "a", 0), userData)),
                    token + 1, Finish(true, 5))
  {
    hide StreamPart.Canonical, StreamPart.ListenerFor;
    PartIsCanonical();
  }

  /** Two subscriptions that draw the same handle. */
  function Collision(h: Handle): Run {
    [(NewCall(h), 1), (StartCall(h), 2), (SubscribeCall(h, 8), 3), (SubscribeCall(h, 9), 4)]
  }

  lemma AfterCollision(urls: Urls, h: Handle)
    ensures |Exec(urls, Collision(h)).wrappers| == 1
    ensures Exec(urls, Collision(h)).wrappers[0]
         == AddSubscription(Log(Subscribed(h, 8), [NetJoin(PART)]), 5, 2, Installed(StreamPart.Listener(h, PART, "a", 0), 9))
  {
    hide Step, NodeOp;
    var run := Collision(h);
    assert run[..0] == [] && run[..4] == run;
    ExecSnoc(urls, run, 0);
    ExecSnoc(urls, run, 1);
    ExecSnoc(urls, run, 2);
    ExecSnoc(urls, run, 3);
    StepNew(urls, h, 1);
    var r1 := map[][1 := Result([], [])];
    StepOn(urls, h, NewNode(h, true), 1, r1, StartCall(h), 2);
    OpStart(urls, h);
    var r2 := r1[2 := Result([], [])];
    StepOn(urls, h, Started(h), 1, r2, SubscribeCall(h, 8), 3);
    OpSubscribe(urls, Started(h), 1, h, 8);
    var r3 := r2[3 := Result([], [])];
    StepOn(urls, h, Subscribed(h, 8), 2, r3, SubscribeCall(h, 9), 4);
    OpSubscribe(urls, Subscribed(h, 8), 2, h, 9);
  }

  lemma OpStart(urls: Urls, h: Handle)
    ensures NodeOp(urls, NewNode(h, true), 1, StartCall(h)) == Outcome(Started(h), 1, Finish(true, 0))
  {
  }

  /** In this run the second listener is orphaned: it runs, no handle leads to
      it, and the handle that both calls returned leads to the first one. */
  lemma CollisionHappens(urls: Urls, h: Handle)
    ensures |Exec(urls, Collision(h)).wrappers| == 1
    ensures var n := Exec(urls, Collision(h)).wrappers[0];
      && FlagPhase(n) == Running && n.subscriptions == map[5 := 1] && n.listeners.Keys == {1, 2}
      && n.listeners[1].userData == 8 && n.listeners[2].userData == 9 && Orphan(n, 2)
  {
    hide Exec;
    AfterCollision(urls, h);
  }

  // ----- handle 0 ----------------------------------------------------------

  /** The destructor destroys the node behind its handle if and only if that
      handle is not 0. */
  lemma DestructorSparesOnlyZero(urls: Urls, lib: Library, h: Handle, i: nat, out: StopOutcome, ptr: Ptr)
    requires LibInv(lib) && LeadsTo(lib, h, i)
    ensures var n := Destructed(urls, lib, h, out, ptr).wrappers;
      i < |n| && (n[i].destroyed <==> h != 0) && (h != 0 ==> n[i].listeners == map[])
  {
    hide NodeInv;
    assert Owned(lib, i);
  }

  /** Creates a node that draws handle 0, starts it, subscribes, and destroys
      the object: the node still runs and its listener passes messages to the
      callback that has gone with the object. */
  lemma ZeroHandleLeaks(urls: Urls, out: StopOutcome, ptr: Ptr)
    ensures var (lib1, e1) := Checked(urls, INITIAL, NewCall(0), ptr);
      var (lib2, e2) := Checked(urls, lib1, StartCall(0), ptr);
      var (lib3, e3) := Checked(urls, lib2, SubscribeCall(0, 9), ptr);
      var lib := Destructed(urls, lib3, 0, out, ptr);
      && e1.Returned? && e2.Returned? && e3.Returned?
      && LeadsTo(lib, 0, 0) && !lib.wrappers[0].destroyed && FlagPhase(lib.wrappers[0]) == Running
      && 1 in lib.wrappers[0].listeners && lib.wrappers[0].listeners[1].userData == 9
  {
    hide Step, NodeOp;
    StepNew(urls, 0, ptr);
    CheckedReply(urls, INITIAL, NewCall(0), ptr, 0, NewNode(0, true), 1, 0);
    StepOn(urls, 0, NewNode(0, true), 1, map[], StartCall(0), ptr);
    OpStart(urls, 0);
    CheckedReply(urls, With(0, NewNode(0, true), 1, map[]), StartCall(0), ptr, 0, Started(0), 1, 0);
    StepOn(urls, 0, Started(0), 1, map[], SubscribeCall(0, 9), ptr);
    OpSubscribe(urls, Started(0), 1, 0, 9);
    CheckedReply(urls, With(0, Started(0), 1, map[]), SubscribeCall(0, 9), ptr, 0, Subscribed(0, 9), 2, 5);
  }

  lemma CheckedReply(urls: Urls, lib: Library, c: Call, ptr: Ptr, h: Handle, n: Node, token: Token, value: nat)
    requires Step(urls, lib, c, ptr) == Reply((With(h, n, token, map[]), Finish(true, value)), ptr)
    ensures Checked(urls, lib, c, ptr) == (With(h, n, token, map[]), Returned(value))
  {
    hide Step;
    assert map[][ptr := Result([], [])] - {ptr} == map[];
  }

  // ----- the lost code -----------------------------------------------------

  /** Setting one proxy with a good address and a bad URL on a running node: the
      C API reports INVALID_PROXY_URL, the wrapper throws another code. */
  lemma BadProxyUrlIsRenamed(n: Node, token: Token)
    requires FlagPhase(n) == Running
    ensures var urls := (_: string) => false;
      var c := NodeSetProxies(n.handle, PART, [Peer(Address(), "x")], 0, 0, true);
      && RefusesUrl(urls, n, c)
      && NodeOp(urls, n, token, c).answer == Answer([Failure(INVALID_PROXY_URL, Some(Peer(Address(), "x")))], [], 0)
      && ErrorCode(INVALID_PROXY_URL) == NODE_OPERATION_FAILED
  {
    hide StreamPart.Canonical;
    PartIsCanonical();
    var urls := (_: string) => false;
    var peers := [Peer(Address(), "x")];
    assert StreamPart.IsEthereumAddress(Address());
    assert IsFirstBad(urls, peers, 0);
  }
}
