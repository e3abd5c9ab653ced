/** What every operation on one node keeps: the started/stopped flags refine a
    three-phase automaton over the calls that reach the network, and the
    subscription table stays consistent with the installed listeners. */
module NodeLife {
  import opened Options
  import opened NodeSpec
  import PeerList
  import StreamPart

  datatype Phase = New | Running | Stopped | Bad

  /** How one network call moves the automaton; `Bad` is a protocol violation. */
  function Advance(p: Phase, call: NetCall): Phase {
    if call.NetStart? then if p == New then Running else Bad
    else if call.NetStop? then if p == Running then Stopped else Bad
    else if call.NetRemoveListener? then if p == Running || p == Stopped then p else Bad
    else if p == Running then Running else Bad
  }

  function TracePhase(t: seq<NetCall>): Phase {
    if t == [] then New else Advance(TracePhase(t[..|t| - 1]), t[|t| - 1])
  }

  /** The phase that the two flags stand for. */
  function FlagPhase(n: Node): Phase {
    if !n.started then if n.stopped then Bad else New
    else if n.stopped then Stopped else Running
  }

  function Rank(p: Phase): nat {
    match p case New => 0 case Running => 1 case Stopped => 2 case Bad => 3
  }

  lemma TracePhaseSnoc(t: seq<NetCall>, call: NetCall)
    ensures TracePhase(t + [call]) == Advance(TracePhase(t), call)
  {
    assert (t + [call])[..|t|] == t;
  }

  // ----- what the automaton means ------------------------------------------

  /** The network is started by the first call and never again. */
  ghost predicate StartsFirstAndOnce(t: seq<NetCall>) {
    (t != [] ==> t[0].NetStart?) && forall k :: 0 < k < |t| ==> !t[k].NetStart?
  }

  /** After a stop only listeners are removed: in particular no second stop. */
  ghost predicate QuietAfterStop(t: seq<NetCall>) {
    forall j, k :: 0 <= j < k < |t| && t[j].NetStop? ==> t[k].NetRemoveListener?
  }

  ghost predicate HasStop(t: seq<NetCall>) {
    exists k :: 0 <= k < |t| && t[k].NetStop?
  }

  ghost predicate Orderly(t: seq<NetCall>) {
    StartsFirstAndOnce(t) && QuietAfterStop(t)
  }

  ghost function OrderlyPhase(t: seq<NetCall>): Phase {
    if !Orderly(t) then Bad else if t == [] then New else if HasStop(t) then Stopped else Running
  }

  lemma OrderlySnoc(t: seq<NetCall>, call: NetCall)
    ensures OrderlyPhase(t + [call]) == Advance(OrderlyPhase(t), call)
  {
    var u := t + [call];
    assert u[|t|] == call && forall k :: 0 <= k < |t| ==> u[k] == t[k];
    assert Orderly(u) ==> Orderly(t) by {
      if Orderly(u) {
        assert t != [] ==> t[0] == u[0];
        forall j, k | 0 <= j < k < |t| && t[j].NetStop? ensures t[k].NetRemoveListener? {
          assert u[j].NetStop? && u[k] == t[k];
        }
      }
    }
    assert HasStop(u) <==> HasStop(t) || call.NetStop? by {
      if HasStop(t) {
        var k :| 0 <= k < |t| && t[k].NetStop?;
        assert u[k].NetStop?;
      }
    }
    if Orderly(t) {
      assert StartsFirstAndOnce(u) <==> (if t == [] then call.NetStart? else !call.NetStart?) by {
        if t != [] { assert u[0] == t[0]; }
      }
      assert QuietAfterStop(u) <==> (HasStop(t) ==> call.NetRemoveListener?) by {
        if HasStop(t) {
          var k :| 0 <= k < |t| && t[k].NetStop?;
          assert u[k].NetStop?;
          assert QuietAfterStop(u) ==> u[|t|].NetRemoveListener?;
        }
      }
    }
  }

  /** The automaton accepts exactly the orderly traces, and its phase says
      whether there was a start and whether there was a stop. */
  lemma {:induction false} PhaseIsOrder(t: seq<NetCall>)
    ensures TracePhase(t) == OrderlyPhase(t)
  {
    if t != [] {
      var s := t[..|t| - 1];
      PhaseIsOrder(s);
      OrderlySnoc(s, t[|t| - 1]);
      assert s + [t[|t| - 1]] == t;
    }
  }

  // ----- the invariant of a node -------------------------------------------

  ghost predicate Injective(m: map<Handle, Token>) {
    forall a, b :: a in m && b in m && m[a] == m[b] ==> a == b
  }

  ghost predicate NodeInv(n: Node, token: Token) {
    && TracePhase(n.trace) == FlagPhase(n) != Bad
    && Injective(n.subscriptions)
    && (forall t :: t in n.listeners ==> t < token)
    && (forall h :: h in n.subscriptions ==> n.subscriptions[h] < token)
    && (FlagPhase(n) == New ==> n.subscriptions == map[] && n.listeners == map[])
    && (FlagPhase(n) == Running ==> n.subscriptions.Values <= n.listeners.Keys)
    && (n.destroyed ==> FlagPhase(n) != Running && n.listeners == map[])
  }

  /** How a node may change: forwards only. */
  ghost predicate Later(n: Node, m: Node) {
    && n.handle == m.handle && n.isolated == m.isolated
    && n.trace <= m.trace
    && (n.started ==> m.started) && (n.stopped ==> m.stopped)
    && Rank(FlagPhase(n)) <= Rank(FlagPhase(m))
    && (n.destroyed ==> m == n)
  }

  ghost predicate Good(n: Node, token: Token, m: Node, token': Token) {
    token <= token' && NodeInv(m, token') && Later(n, m) && m.destroyed == n.destroyed
  }

  lemma NewNodeInv(handle: Handle, isolated: bool, token: Token)
    ensures NodeInv(NewNode(handle, isolated), token)
  {
  }

  lemma TokenGrows(n: Node, token: Token, token': Token)
    requires NodeInv(n, token) && token <= token'
    ensures NodeInv(n, token')
  {
  }

  lemma StopGood(n: Node, token: Token, out: StopOutcome)
    requires NodeInv(n, token)
    ensures Good(n, token, StopNode(n, out), token)
  {
    TracePhaseSnoc(n.trace, NetStop);
  }

  /** Destroying a node ends in a phase where nothing is left to stop. */
  lemma DestroyGood(n: Node, token: Token, out: StopOutcome)
    requires NodeInv(n, token) && !n.destroyed
    ensures NodeInv(Destroy(n, out), token) && Later(n, Destroy(n, out))
    ensures Destroy(n, out).started <==> n.started
    ensures FlagPhase(Destroy(n, out)) == if n.started then Stopped else New
  {
    hide TracePhase;
    StopGood(n, token, out);
  }

  lemma StartTriedPhase(n: Node, out: StartOutcome)
    requires TracePhase(n.trace) == New
    ensures TracePhase(StartTried(n, out).trace) == Running
    ensures n.trace <= StartTried(n, out).trace
  {
    hide TracePhase;
    var t := n.trace + [NetStart(!n.isolated)];
    TracePhaseSnoc(n.trace, NetStart(!n.isolated));
    TracePhaseSnoc(t, NetJoinDht);
    assert t + [] == t;
  }

  lemma StartGood(n: Node, token: Token, out: StartOutcome)
    requires NodeInv(n, token) && !n.destroyed && FlagPhase(n) == New
    ensures Good(n, token, StartNode(n, out), token)
    ensures FlagPhase(StartNode(n, out)) == if StartSucceeds(n, out) then Running else Stopped
  {
    hide TracePhase;
    StartTriedPhase(n, out);
    var tried := StartTried(n, out);
    StopGood(tried, token, out.teardown);
  }

  /** Network calls other than start and stop keep a running node running. */
  lemma {:induction false} LogPhase(t: seq<NetCall>, calls: seq<NetCall>)
    requires TracePhase(t) == Running && forall k :: 0 <= k < |calls| ==> !calls[k].NetStart? && !calls[k].NetStop?
    ensures TracePhase(t + calls) == Running
    decreases |calls|
  {
    hide TracePhase;
    if calls == [] {
      assert t + calls == t;
    } else {
      TracePhaseSnoc(t, calls[0]);
      LogPhase(t + [calls[0]], calls[1..]);
      assert t + calls == t + [calls[0]] + calls[1..];
    }
  }

  lemma LogGood(n: Node, token: Token, calls: seq<NetCall>)
    requires NodeInv(n, token) && !n.destroyed && FlagPhase(n) == Running
    requires forall k :: 0 <= k < |calls| ==> !calls[k].NetStart? && !calls[k].NetStop?
    ensures Good(n, token, Log(n, calls), token)
  {
    hide TracePhase;
    LogPhase(n.trace, calls);
  }

  lemma AddGood(n: Node, token: Token, handle: Handle, l: Installed)
    requires NodeInv(n, token) && !n.destroyed && FlagPhase(n) == Running
    ensures Good(n, token, AddSubscription(n, handle, token, l), token + 1)
  {
    hide TracePhase;
    LogPhase(n.trace, [NetAddListener(token)]);
  }

  lemma RemoveGood(n: Node, token: Token, handle: Handle)
    requires NodeInv(n, token) && !n.destroyed && handle in n.subscriptions
    ensures Good(n, token, RemoveSubscription(n, handle), token)
  {
    hide TracePhase;
    TracePhaseSnoc(n.trace, NetRemoveListener(n.subscriptions[handle]));
  }

  lemma PartGood(urls: PeerList.Urls, n: Node, token: Token, part: string, c: Call)
    requires NodeInv(n, token) && !n.destroyed && FlagPhase(n) == Running && NeedsRunning(c)
    ensures var o := PartOp(urls, n, token, part, c); Good(n, token, o.node, o.nextToken)
  {
    hide TracePhase, PeerList.ParsePeers, StreamPart.MessageFor, StreamPart.ListenerFor;
    var o := PartOp(urls, n, token, part, c);
    if c.NodeSubscribe? {
      LogGood(n, token, [NetJoin(part)]);
      var l := StreamPart.ListenerFor(c.node, part);
      if l.Some? && c.ok {
        TokenGrows(Log(n, [NetJoin(part)]), token, token + c.drawn);
        AddGood(Log(n, [NetJoin(part)]), token + c.drawn, c.handle, Installed(l.value, c.userData));
      }
    } else if c.NodePublish? {
      var n' := n.(sequenceNumber := NextInt32(n.sequenceNumber));
      var m := StreamPart.MessageFor(part, c.content);
      if m.Some? && c.built {
        LogGood(n', token, [NetBroadcast(m.value, n.sequenceNumber)]);
      }
    } else if c.NodeJoin? {
      var ds := PeerList.ParsePeers(urls, c.entryPoints, PeerList.INVALID_ENTRY_POINT_URL);
      if ds.Parsed? {
        var entry := if ds.descriptors == [] then [] else [NetSetEntryPoints(part, ds.descriptors)];
        LogGood(n, token, entry);
        LogGood(n, token, entry + [NetJoin(part)]);
      }
    } else if c.NodeLeave? {
      LogGood(n, token, [NetLeave(part)]);
    } else if c.NodeNeighbors? {
      LogGood(n, token, [NetNeighbors(part)]);
    } else {
      var ds := PeerList.ParsePeers(urls, c.proxies, PeerList.INVALID_PROXY_URL);
      if ds.Parsed? {
        LogGood(n, token, [NetSetProxies(part, ds.descriptors, c.direction == 1, if c.connections == 0 then None else Some(c.connections))]);
      }
    }
  }

  /** Every operation on a live node keeps the invariant and moves forwards. */
  lemma NodeOpGood(urls: PeerList.Urls, n: Node, token: Token, c: Call)
    requires NodeInv(n, token) && !n.destroyed && IsNodeCall(c)
    ensures var o := NodeOp(urls, n, token, c); Good(n, token, o.node, o.nextToken)
  {
    hide TracePhase, StreamPart.Canonical, PartOp, StartNode, StopNode, RemoveSubscription;
    if c.NodeStart? {
      if FlagPhase(n) == New { StartGood(n, token, c.start); }
    } else if c.NodeStop? {
      StopGood(n, token, c.stop);
    } else if c.NodeUnsubscribe? {
      if c.subscription in n.subscriptions { RemoveGood(n, token, c.subscription); }
    } else if Guard(n).None? {
      var part := StreamPart.Canonical(c.streamPart);
      if part.Ok? { PartGood(urls, n, token, part.value, c); }
    }
  }

  // ----- subscriptions and listeners ---------------------------------------

  /** A subscribe call on this node that installs a listener. */
  ghost predicate Installs(n: Node, c: Call) {
    c.NodeSubscribe? && FlagPhase(n) == Running && c.callback && c.ok && StreamPart.Canonical(c.streamPart).Ok?
  }

  /** ... under a handle that already stands for another subscription. */
  ghost predicate Collides(n: Node, c: Call) {
    Installs(n, c) && c.handle in n.subscriptions
  }

  /** The subscriptions are in bijection with the listeners. */
  ghost predicate Bijection(n: Node) {
    Injective(n.subscriptions) && n.subscriptions.Values == n.listeners.Keys
  }

  /** Listeners that no subscription handle leads to. */
  ghost function Orphans(n: Node): int { |n.listeners| - |n.subscriptions| }

  lemma {:induction false} InjectiveSize(m: map<Handle, Token>)
    requires Injective(m)
    ensures |m.Values| == |m|
    decreases |m|
  {
    if m != map[] {
      var h :| h in m;
      var rest := m - {h};
      InjectiveSize(rest);
      forall k | k in m && k != h ensures m[k] in rest.Values { assert rest[k] == m[k]; }
      assert forall v :: v in rest.Values ==> v in m.Values && v != m[h];
      assert m.Values == rest.Values + {m[h]};
      assert |rest| == |m| - 1 by { assert rest.Keys == m.Keys - {h}; }
    } else {
      assert m.Values == {};
    }
  }

  lemma SubsetOfSameSize(a: set<Token>, b: set<Token>)
    requires a <= b
    ensures |a| <= |b| && (|a| == |b| <==> a == b)
  {
    assert |b - a| == |b| - |a|;
    if |a| == |b| { assert b - a == {}; }
  }

  /** On a running node a bijection is the same as having no orphans. */
  lemma BijectionMeansNoOrphans(n: Node, token: Token)
    requires NodeInv(n, token) && FlagPhase(n) == Running
    ensures Orphans(n) >= 0 && (Bijection(n) <==> Orphans(n) == 0)
  {
    hide TracePhase;
    InjectiveSize(n.subscriptions);
    assert |n.listeners| == |n.listeners.Keys|;
    SubsetOfSameSize(n.subscriptions.Values, n.listeners.Keys);
  }

  lemma AddOrphans(n: Node, token: Token, handle: Handle, l: Installed)
    requires token !in n.listeners
    ensures Orphans(AddSubscription(n, handle, token, l)) == Orphans(n) + if handle in n.subscriptions then 1 else 0
  {
  }

  lemma RemoveOrphans(n: Node, handle: Handle)
    requires handle in n.subscriptions && n.subscriptions[handle] in n.listeners
    ensures Orphans(RemoveSubscription(n, handle)) == Orphans(n)
  {
    var m := RemoveSubscription(n, handle);
    assert m.subscriptions.Keys == n.subscriptions.Keys - {handle};
    assert m.listeners.Keys == n.listeners.Keys - {n.subscriptions[handle]};
    assert |m.subscriptions| == |m.subscriptions.Keys| && |m.listeners| == |m.listeners.Keys|;
  }

  lemma ListenerForCanonical(node: Handle, s: string)
    requires StreamPart.Canonical(s).Ok?
    ensures StreamPart.ListenerFor(node, StreamPart.Canonical(s).value).Some?
  {
    StreamPart.PublishReachesSubscription(s, s, node, []);
  }

  lemma PartOrphans(urls: PeerList.Urls, n: Node, token: Token, c: Call)
    requires NodeInv(n, token) && FlagPhase(n) == Running && NeedsRunning(c) && StreamPart.Canonical(c.streamPart).Ok?
    requires c.NodeSubscribe? ==> c.callback
    ensures Orphans(PartOp(urls, n, token, StreamPart.Canonical(c.streamPart).value, c).node)
         == Orphans(n) + if Collides(n, c) then 1 else 0
  {
    hide TracePhase, PeerList.ParsePeers, StreamPart.MessageFor, StreamPart.ListenerFor, StreamPart.Canonical;
    var part := StreamPart.Canonical(c.streamPart).value;
    if c.NodeSubscribe? {
      ListenerForCanonical(c.node, c.streamPart);
      AddOrphans(Log(n, [NetJoin(part)]), token + c.drawn, c.handle, Installed(StreamPart.ListenerFor(c.node, part).value, c.userData));
    }
  }

  /** While a node runs, only a handle collision leaves a listener behind. */
  lemma OpOrphans(urls: PeerList.Urls, n: Node, token: Token, c: Call)
    requires NodeInv(n, token) && IsNodeCall(c)
    ensures var m := NodeOp(urls, n, token, c).node;
      FlagPhase(m) == New || FlagPhase(m) == Running ==>
        FlagPhase(n) != Stopped && Orphans(m) == Orphans(n) + if Collides(n, c) then 1 else 0
  {
    hide TracePhase, StreamPart.Canonical, PartOp, RemoveSubscription;
    if c.NodeUnsubscribe? {
      if c.subscription in n.subscriptions {
        var m := RemoveSubscription(n, c.subscription);
        RemovePhase(n, c.subscription);
        if FlagPhase(n) == Running { RemoveOrphans(n, c.subscription); }
      }
    } else if NeedsRunning(c) && Guard(n).None? && (c.NodeSubscribe? ==> c.callback) {
      if StreamPart.Canonical(c.streamPart).Ok? { PartOrphans(urls, n, token, c); }
    }
  }

  lemma RemovePhase(n: Node, handle: Handle)
    requires handle in n.subscriptions
    ensures FlagPhase(RemoveSubscription(n, handle)) == FlagPhase(n)
  {
  }

  /** On a running node with a bijection, a subscribe call keeps the bijection
      exactly when its handle is new. */
  lemma SubscribeKeepsBijection(urls: PeerList.Urls, n: Node, token: Token, c: Call)
    requires NodeInv(n, token) && !n.destroyed && Bijection(n) && Installs(n, c)
    ensures Bijection(NodeOp(urls, n, token, c).node) <==> c.handle !in n.subscriptions
  {
    hide TracePhase, NodeOp, Bijection, StreamPart.Canonical;
    NodeOpGood(urls, n, token, c);
    OpOrphans(urls, n, token, c);
    InstallsRuns(urls, n, token, c);
    var o := NodeOp(urls, n, token, c);
    BijectionMeansNoOrphans(n, token);
    BijectionMeansNoOrphans(o.node, o.nextToken);
  }

  lemma InstallsRuns(urls: PeerList.Urls, n: Node, token: Token, c: Call)
    requires Installs(n, c)
    ensures FlagPhase(NodeOp(urls, n, token, c).node) == Running
  {
    hide StreamPart.Canonical, StreamPart.ListenerFor;
  }

  /** Unsubscribing takes away one handle and its listener and nothing else;
      doing it again reports the handle as unknown and changes nothing. */
  lemma UnsubscribeOnce(urls: PeerList.Urls, n: Node, token: Token, sub: Handle)
    requires NodeInv(n, token) && FlagPhase(n) == Running && sub in n.subscriptions
    ensures var c := NodeUnsubscribe(n.handle, sub);
      var o := NodeOp(urls, n, token, c);
      && o.answer == FINE && o.nextToken == token
      && |o.node.listeners| == |n.listeners| - 1
      && n.listeners == o.node.listeners[n.subscriptions[sub] := n.listeners[n.subscriptions[sub]]]
      && n.subscriptions == o.node.subscriptions[sub := n.subscriptions[sub]]
      && sub !in o.node.subscriptions && FlagPhase(o.node) == Running
      && NodeOp(urls, o.node, token, c) == Outcome(o.node, token, Error(PeerList.SUBSCRIPTION_NOT_FOUND))
  {
    hide TracePhase;
    RemoveOrphans(n, sub);
    var m := RemoveSubscription(n, sub);
    assert |m.subscriptions| == |n.subscriptions| - 1 by {
      assert m.subscriptions.Keys == n.subscriptions.Keys - {sub};
    }
  }
}
