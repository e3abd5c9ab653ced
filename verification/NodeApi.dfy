/** The C API as the program runs it: wrapper objects with flags and tables
    that are updated in place, and registries that map handles to them. Every
    method is proved to do what NodeSpec says. Foreign calls take what they
    decide (returned or threw, random handles, addresses) as arguments. */
module NodeApi {
  import opened Options
  import opened PeerList
  import opened NodeSpec
  import StreamPart

  /** The process-wide source of listener tokens. */
  class TokenCounter {
    var next: Token

    constructor ()
      ensures next == 1
    {
      next := 1;
    }
  }

  /** A StreamrNodeWrapper; `listeners` and `trace` belong to the network node
      that it alone owns. */
  class StreamrNodeWrapper {
    const handle: Handle
    const isolated: bool
    var started: bool
    var stopped: bool
    ghost var destroyed: bool
    var sequenceNumber: int
    var subscriptions: map<Handle, Token>
    var listeners: map<Token, Installed>
    ghost var trace: seq<NetCall>

    ghost function View(): (n: Node)
      reads this
      ensures n.handle == handle
    {
      Node(handle, isolated, started, stopped, destroyed, sequenceNumber, subscriptions, listeners, trace)
    }

    constructor (handle: Handle, isolated: bool)
      ensures View() == NewNode(handle, isolated)
    {
      this.handle, this.isolated := handle, isolated;
      started, stopped, destroyed, sequenceNumber := false, false, false, 1;
      subscriptions, listeners, trace := map[], map[], [];
    }

    /** A call on the network node, recorded. */
    ghost method Network(call: NetCall)
      modifies this`trace
      ensures trace == old(trace) + [call]
    {
      trace := trace + [call];
    }

    method NetworkStop(out: StopOutcome) returns (threw: bool)
      modifies this`trace, this`listeners
      ensures trace == old(trace) + [NetStop] && listeners == Survivors(old(listeners), out)
      ensures threw == out.StopThrew?
    {
      Network(NetStop);
      listeners := Survivors(listeners, out);
      threw := out.StopThrew?;
    }

    /** The network is stopped only by the caller that flips the flag. */
    method Stop(out: StopOutcome) returns (threw: bool)
      modifies this
      ensures View() == StopNode(old(View()), out)
      ensures threw <==> old(started && !stopped) && out.StopThrew?
    {
      threw := false;
      if started {
        var was := stopped;
        stopped := true;
        if !was {
          threw := NetworkStop(out);
        }
      }
    }

    /** The try block of `streamrNodeStart` and its handler. */
    method TryStart(out: StartOutcome) returns (ok: bool)
      requires !started && !stopped
      modifies this
      ensures View() == StartNode(old(View()), out) && ok == StartSucceeds(old(View()), out)
    {
      ok := out.start;
      if isolated {
        Network(NetStart(false));
        if ok {
          Network(NetJoinDht);
          ok := out.joinDht;
        }
      } else {
        Network(NetStart(true));
      }
      started := true;
      if !ok {
        var _ := Stop(out.teardown);
        stopped := true;
      }
    }

    /** The try block of `streamrNodeJoinStreamPart`. */
    method TryJoin(part: string, ds: seq<Descriptor>, entryOk: bool, joinOk: bool) returns (ok: bool)
      modifies this`trace
      ensures ds != [] ==> trace == old(trace) + [NetSetEntryPoints(part, ds)] + (if entryOk then [NetJoin(part)] else [])
      ensures ds == [] ==> trace == old(trace) + [NetJoin(part)]
      ensures ok == ((ds == [] || entryOk) && joinOk)
    {
      if ds != [] {
        Network(NetSetEntryPoints(part, ds));
        if !entryOk {
          return false;
        }
      }
      Network(NetJoin(part));
      ok := joinOk;
    }

    /** An exception of `stop` does not leave the destructor. */
    method Destructor(out: StopOutcome)
      modifies this
      ensures View() == Destroy(old(View()), out)
    {
      var _ := Stop(out);
      listeners := map[];
      destroyed := true;
    }

    method GetNextSequenceNumber() returns (i: int)
      modifies this`sequenceNumber
      ensures i == old(sequenceNumber) && sequenceNumber == NextInt32(i)
    {
      i := sequenceNumber;
      sequenceNumber := NextInt32(i);
    }

    /** `emplace`. */
    method AddSubscription(subscriptionHandle: Handle, token: Token)
      modifies this`subscriptions
      ensures subscriptions == if subscriptionHandle in old(subscriptions) then old(subscriptions)
                               else old(subscriptions)[subscriptionHandle := token]
    {
      if subscriptionHandle !in subscriptions {
        subscriptions := subscriptions[subscriptionHandle := token];
      }
    }

    method TakeSubscription(subscriptionHandle: Handle) returns (token: Option<Token>)
      modifies this`subscriptions
      ensures subscriptions == old(subscriptions) - {subscriptionHandle}
      ensures token == if subscriptionHandle in old(subscriptions) then Some(old(subscriptions)[subscriptionHandle]) else None
    {
      if subscriptionHandle !in subscriptions {
        return None;
      }
      token := Some(subscriptions[subscriptionHandle]);
      subscriptions := subscriptions - {subscriptionHandle};
    }

    /** Registers a message listener under a new token; `drawn` tokens have gone
        to other emitters in the meantime. */
    method AddMessageListener(tokens: TokenCounter, drawn: nat, l: Installed) returns (token: Token)
      modifies this`listeners, this`trace, tokens
      ensures token == old(tokens.next) + drawn && tokens.next == token + 1
      ensures listeners == old(listeners)[token := l] && trace == old(trace) + [NetAddListener(token)]
    {
      token := tokens.next + drawn;
      tokens.next := token + 1;
      listeners := listeners[token := l];
      Network(NetAddListener(token));
    }

    /** Registers a listener and enters it under a handle. */
    method Listen(tokens: TokenCounter, drawn: nat, subscriptionHandle: Handle, l: Installed)
      modifies this, tokens
      ensures View() == NodeSpec.AddSubscription(old(View()), subscriptionHandle, old(tokens.next) + drawn, l)
      ensures tokens.next == old(tokens.next) + drawn + 1
    {
      var token := AddMessageListener(tokens, drawn, l);
      AddSubscription(subscriptionHandle, token);
    }

    method RemoveMessageListener(token: Token)
      modifies this`listeners, this`trace
      ensures listeners == old(listeners) - {token} && trace == old(trace) + [NetRemoveListener(token)]
    {
      listeners := listeners - {token};
      Network(NetRemoveListener(token));
    }
  }

  class LibProxyClientApi {
    var streamrNodes: map<Handle, StreamrNodeWrapper>
    var proxyClients: map<Handle, int>
    var results: map<Ptr, Result>
    const tokens: TokenCounter

    constructor (tokens: TokenCounter)
      ensures this.tokens == tokens && streamrNodes == map[] && proxyClients == map[] && results == map[]
    {
      this.tokens := tokens;
      streamrNodes, proxyClients, results := map[], map[], map[];
    }

    /** The wrapper behind a handle, if any. */
    ghost function At(h: Handle): set<StreamrNodeWrapper>
      reads this
    {
      if h in streamrNodes then {streamrNodes[h]} else {}
    }

    // ----- what calls promise ----------------------------------------------

    /** The answer was published as one result, or the call threw. */
    twostate predicate Answered(a: Answer, ptr: Ptr, r: Response)
      reads this
    {
      if a.Throw? then r == Escaped && results == old(results)
      else r == Replied(a.value, ptr) && results == old(results)[ptr := Result(a.errors, a.successful)]
    }

    /** The call did to its node what `NodeOp` says. */
    twostate predicate Did(urls: Urls, c: Call, ptr: Ptr, r: Response)
      requires IsNodeCall(c)
      reads this, tokens, At(c.node)
    {
      && streamrNodes == old(streamrNodes) && proxyClients == old(proxyClients)
      && (c.node !in streamrNodes ==> tokens.next == old(tokens.next) && Answered(Error(NODE_NOT_FOUND), ptr, r))
      && (c.node in streamrNodes ==>
            var o := NodeOp(urls, old(streamrNodes[c.node].View()), old(tokens.next), c);
            streamrNodes[c.node].View() == o.node && tokens.next == o.nextToken && Answered(o.answer, ptr, r))
    }

    // ----- helpers ---------------------------------------------------------

    method AddResult(errors: seq<Failure>, successful: seq<Peer>, ptr: Ptr)
      modifies this`results
      ensures results == old(results)[ptr := Result(errors, successful)]
    {
      results := results[ptr := Result(errors, successful)];
    }

    method Fail(code: Code, ptr: Ptr) returns (r: Response)
      modifies this`results
      ensures Answered(Error(code), ptr, r)
    {
      AddResult([Failure(code, None)], [], ptr);
      r := Replied(0, ptr);
    }

    method Succeed(value: nat, ptr: Ptr) returns (r: Response)
      modifies this`results
      ensures Answered(Answer([], [], value), ptr, r)
    {
      AddResult([], [], ptr);
      r := Replied(value, ptr);
    }

    method FindStreamrNode(h: Handle, ptr: Ptr) returns (node: StreamrNodeWrapper?, r: Response)
      modifies this`results
      ensures h in streamrNodes ==> node == streamrNodes[h] && results == old(results)
      ensures h !in streamrNodes ==> node == null && Answered(Error(NODE_NOT_FOUND), ptr, r)
    {
      if h !in streamrNodes {
        r := Fail(NODE_NOT_FOUND, ptr);
        return null, r;
      }
      return streamrNodes[h], NoResult;
    }

    method CheckStreamrNodeRunning(node: StreamrNodeWrapper, ptr: Ptr) returns (running: bool, r: Response)
      modifies this`results
      ensures running <==> Guard(node.View()).None?
      ensures running ==> results == old(results)
      ensures !running ==> Answered(Error(Guard(node.View()).value), ptr, r)
    {
      running, r := false, NoResult;
      if !node.started {
        r := Fail(NODE_NOT_STARTED, ptr);
        return;
      }
      if node.stopped {
        r := Fail(NODE_STOPPED, ptr);
        return;
      }
      running := true;
    }

    method ParseStreamPartIdChecked(streamPart: string, ptr: Ptr) returns (part: Option<string>, r: Response)
      modifies this`results
      ensures var p := StreamPart.Canonical(streamPart);
        && (p.Ok? ==> part == Some(p.value) && results == old(results))
        && (p.InvalidArgument? ==> part == None && Answered(Error(INVALID_STREAM_PART_ID), ptr, r))
        && (p.UncaughtError? ==> part == None && Answered(Throw, ptr, r))
    {
      hide StreamPart.Canonical;
      var p := StreamPart.Canonical(streamPart);
      part, r := None, Escaped;
      if p.Ok? {
        part := Some(p.value);
      } else if p.InvalidArgument? {
        r := Fail(INVALID_STREAM_PART_ID, ptr);
      }
    }

    method ParsePeersChecked(urls: Urls, peers: seq<Peer>, badUrl: Code, ptr: Ptr)
      returns (ds: Option<seq<Descriptor>>, r: Response)
      modifies this`results
      ensures var p := ParsePeers(urls, peers, badUrl);
        && (p.Parsed? ==> ds == Some(p.descriptors) && results == old(results))
        && (p.Rejected? ==> ds == None && Answered(Answer([p.failure], [], 0), ptr, r))
    {
      hide ParsePeers;
      var p := ParsePeerList(urls, peers, badUrl);
      ds, r := None, NoResult;
      if p.Parsed? {
        ds := Some(p.descriptors);
      } else {
        AddResult([p.failure], [], ptr);
        r := Replied(0, ptr);
      }
    }

    /** Finds a running node and parses the stream part, as most calls begin. */
    method RunningNode(h: Handle, streamPart: string, ptr: Ptr)
      returns (node: StreamrNodeWrapper?, part: string, r: Response)
      modifies this`results
      ensures node != null ==> h in streamrNodes && node == streamrNodes[h] && results == old(results)
      ensures node != null ==> Guard(node.View()).None? && StreamPart.Canonical(streamPart) == StreamPart.Ok(part)
      ensures node == null && h !in streamrNodes ==> Answered(Error(NODE_NOT_FOUND), ptr, r)
      ensures node == null && h in streamrNodes ==> forall urls, token, c |
        NeedsRunning(c) && c.node == h && c.streamPart == streamPart && (c.NodeSubscribe? ==> c.callback) ::
          (var n := streamrNodes[h].View();
           var o := NodeOp(urls, n, token, c);
           o.node == n && o.nextToken == token && Answered(o.answer, ptr, r))
    {
      hide StreamPart.Canonical, PartOp;
      part := "";
      node, r := FindStreamrNode(h, ptr);
      if node == null {
        return;
      }
      var running: bool;
      running, r := CheckStreamrNodeRunning(node, ptr);
      if !running {
        return null, part, r;
      }
      var parsed: Option<string>;
      parsed, r := ParseStreamPartIdChecked(streamPart, ptr);
      if parsed.None? {
        return null, part, r;
      }
      part := parsed.value;
    }

    // ----- node life cycle -------------------------------------------------

    method StreamrNodeStart(urls: Urls, h: Handle, out: StartOutcome, ptr: Ptr) returns (r: Response)
      modifies this`results, At(h)
      ensures Did(urls, NodeStart(h, out), ptr, r)
    {
      hide StartNode, StartSucceeds;
      var node;
      node, r := FindStreamrNode(h, ptr);
      if node == null {
        return;
      }
      if node.stopped {
        r := Fail(NODE_STOPPED, ptr);
        return;
      }
      if node.started {
        r := Fail(NODE_ALREADY_STARTED, ptr);
        return;
      }
      var ok := node.TryStart(out);
      r := Conclude(ok, ptr);
    }

    method StreamrNodeStop(urls: Urls, h: Handle, out: StopOutcome, ptr: Ptr) returns (r: Response)
      modifies this`results, At(h)
      ensures Did(urls, NodeStop(h, out), ptr, r)
    {
      var node;
      node, r := FindStreamrNode(h, ptr);
      if node == null {
        return;
      }
      if !node.started {
        r := Fail(NODE_NOT_STARTED, ptr);
        return;
      }
      var threw := node.Stop(out);
      if threw {
        r := Fail(NODE_OPERATION_FAILED, ptr);
      } else {
        r := Succeed(0, ptr);
      }
    }

    // ----- operations on a running node ------------------------------------

    method Conclude(ok: bool, ptr: Ptr) returns (r: Response)
      modifies this`results
      ensures Answered(Finish(ok, 0), ptr, r)
    {
      if ok {
        r := Succeed(0, ptr);
      } else {
        r := Fail(NODE_OPERATION_FAILED, ptr);
      }
    }

    method StreamrNodeJoinStreamPart(urls: Urls, h: Handle, streamPart: string, entryPoints: seq<Peer>,
                                     entryOk: bool, ok: bool, ptr: Ptr) returns (r: Response)
      modifies this`results, At(h)
      ensures Did(urls, NodeJoin(h, streamPart, entryPoints, entryOk, ok), ptr, r)
    {
      hide StreamPart.Canonical, ParsePeers;
      var node, part;
      node, part, r := RunningNode(h, streamPart, ptr);
      if node == null {
        return;
      }
      var ds;
      ds, r := ParsePeersChecked(urls, entryPoints, INVALID_ENTRY_POINT_URL, ptr);
      if ds.None? {
        return;
      }
      var returned := node.TryJoin(part, ds.value, entryOk, ok);
      r := Conclude(returned, ptr);
    }

    method StreamrNodeLeaveStreamPart(urls: Urls, h: Handle, streamPart: string, ok: bool, ptr: Ptr) returns (r: Response)
      modifies this`results, At(h)
      ensures Did(urls, NodeLeave(h, streamPart, ok), ptr, r)
    {
      hide StreamPart.Canonical;
      var node, part;
      node, part, r := RunningNode(h, streamPart, ptr);
      if node == null {
        return;
      }
      node.Network(NetLeave(part));
      r := Conclude(ok, ptr);
    }

    method StreamrNodePublish(urls: Urls, h: Handle, streamPart: string, content: seq<bv8>,
                              built: bool, ok: bool, ptr: Ptr) returns (r: Response)
      modifies this`results, At(h)
      ensures Did(urls, NodePublish(h, streamPart, content, built, ok), ptr, r)
    {
      hide StreamPart.Canonical, StreamPart.MessageFor;
      var node, part;
      node, part, r := RunningNode(h, streamPart, ptr);
      if node == null {
        return;
      }
      var sequenceNumber := node.GetNextSequenceNumber();
      var message := StreamPart.MessageFor(part, content);
      if message.None? || !built {
        r := Fail(NODE_OPERATION_FAILED, ptr);
        return;
      }
      node.Network(NetBroadcast(message.value, sequenceNumber));
      r := Conclude(ok, ptr);
    }

    method StreamrNodeSubscribe(urls: Urls, h: Handle, streamPart: string, callback: bool, userData: nat,
                                drawn: nat, subscriptionHandle: Handle, ok: bool, ptr: Ptr) returns (r: Response)
      modifies this`results, tokens, At(h)
      ensures Did(urls, NodeSubscribe(h, streamPart, callback, userData, drawn, subscriptionHandle, ok), ptr, r)
    {
      hide StreamPart.Canonical, StreamPart.ListenerFor, AddSubscription;
      var node;
      node, r := FindStreamrNode(h, ptr);
      if node == null {
        return;
      }
      var running: bool;
      running, r := CheckStreamrNodeRunning(node, ptr);
      if !running {
        return;
      }
      if !callback {
        r := Fail(NODE_OPERATION_FAILED, ptr);
        return;
      }
      var parsed: Option<string>;
      parsed, r := ParseStreamPartIdChecked(streamPart, ptr);
      if parsed.None? {
        return;
      }
      node.Network(NetJoin(parsed.value));
      var l := StreamPart.ListenerFor(h, parsed.value);
      if !ok || l.None? {
        r := Fail(NODE_OPERATION_FAILED, ptr);
        return;
      }
      node.Listen(tokens, drawn, subscriptionHandle, Installed(l.value, userData));
      r := Succeed(subscriptionHandle, ptr);
    }

    method StreamrNodeUnsubscribe(urls: Urls, h: Handle, subscriptionHandle: Handle, ptr: Ptr) returns (r: Response)
      modifies this`results, At(h)
      ensures Did(urls, NodeUnsubscribe(h, subscriptionHandle), ptr, r)
    {
      var node;
      node, r := FindStreamrNode(h, ptr);
      if node == null {
        return;
      }
      var token := node.TakeSubscription(subscriptionHandle);
      if token.None? {
        r := Fail(SUBSCRIPTION_NOT_FOUND, ptr);
        assert node.subscriptions == old(node.subscriptions);
        return;
      }
      node.RemoveMessageListener(token.value);
      r := Succeed(0, ptr);
    }

    method StreamrNodeGetNeighborCount(urls: Urls, h: Handle, streamPart: string, count: nat, ok: bool, ptr: Ptr) returns (r: Response)
      modifies this`results, At(h)
      ensures Did(urls, NodeNeighbors(h, streamPart, count, ok), ptr, r)
    {
      hide StreamPart.Canonical;
      var node, part;
      node, part, r := RunningNode(h, streamPart, ptr);
      if node == null {
        return;
      }
      node.Network(NetNeighbors(part));
      if !ok {
        return Escaped;
      }
      r := Succeed(count, ptr);
    }

    method StreamrNodeSetProxies(urls: Urls, h: Handle, streamPart: string, proxies: seq<Peer>, direction: int,
                                 connectionCount: nat, ok: bool, ptr: Ptr) returns (r: Response)
      modifies this`results, At(h)
      ensures Did(urls, NodeSetProxies(h, streamPart, proxies, direction, connectionCount, ok), ptr, r)
    {
      hide StreamPart.Canonical, ParsePeers;
      var node, part;
      node, part, r := RunningNode(h, streamPart, ptr);
      if node == null {
        return;
      }
      if direction != 0 && direction != 1 {
        r := Fail(NODE_OPERATION_FAILED, ptr);
        return;
      }
      var ds;
      ds, r := ParsePeersChecked(urls, proxies, INVALID_PROXY_URL, ptr);
      if ds.None? {
        return;
      }
      var count := if connectionCount == 0 then None else Some(connectionCount);
      node.Network(NetSetProxies(part, ds.value, direction == 1, count));
      r := Conclude(ok, ptr);
    }

    /** The exported calls on a node handle. */
    method OnNode(urls: Urls, c: Call, ptr: Ptr) returns (r: Response)
      requires IsNodeCall(c)
      modifies this`results, tokens, At(c.node)
      ensures Did(urls, c, ptr, r)
    {
      hide NodeOp;
      match c
      case NodeStart(h, out) => r := StreamrNodeStart(urls, h, out, ptr);
      case NodeStop(h, out) => r := StreamrNodeStop(urls, h, out, ptr);
      case NodeUnsubscribe(h, sub) => r := StreamrNodeUnsubscribe(urls, h, sub, ptr);
      case NodeJoin(h, part, entryPoints, entryOk, ok) =>
        r := StreamrNodeJoinStreamPart(urls, h, part, entryPoints, entryOk, ok, ptr);
      case NodeLeave(h, part, ok) => r := StreamrNodeLeaveStreamPart(urls, h, part, ok, ptr);
      case NodePublish(h, part, content, built, ok) =>
        r := StreamrNodePublish(urls, h, part, content, built, ok, ptr);
      case NodeSubscribe(h, part, callback, userData, drawn, sub, ok) =>
        r := StreamrNodeSubscribe(urls, h, part, callback, userData, drawn, sub, ok, ptr);
      case NodeNeighbors(h, part, count, ok) => r := StreamrNodeGetNeighborCount(urls, h, part, count, ok, ptr);
      case NodeSetProxies(h, part, proxies, direction, connections, ok) =>
        r := StreamrNodeSetProxies(urls, h, part, proxies, direction, connections, ok, ptr);
    }

    // ----- creation and deletion of nodes ----------------------------------

    /** On success the map leads to a new wrapper, and a wrapper that was there
        under the same handle is destroyed; `created` is null on failure. */
    method StreamrNodeNew(urls: Urls, ownAddress: string, entryPoints: seq<Peer>, websocketPort: nat,
                          built: bool, h: Handle, replaced: StopOutcome, ptr: Ptr)
      returns (created: StreamrNodeWrapper?, r: Response)
      modifies this, At(h)
      ensures proxyClients == old(proxyClients)
      ensures created != null ==> fresh(created) && streamrNodes == old(streamrNodes)[h := created]
      ensures created == null ==> streamrNodes == old(streamrNodes) && forall w <- At(h) :: w.View() == old(w.View())
      ensures created != null ==> forall w <- old(At(h)) :: w.View() == Destroy(old(w.View()), replaced)
      ensures var p := ParsePeers(urls, entryPoints, INVALID_ENTRY_POINT_URL);
        && (created != null <==> StreamPart.IsEthereumAddress(ownAddress) && p.Parsed? && built)
        && (StreamPart.IsEthereumAddress(ownAddress) && p.Parsed? && !built ==> Answered(Throw, ptr, r))
        && (created != null ==> created.View() == NewNode(h, p.descriptors == [] && websocketPort == 0)
                                && Answered(Finish(true, h), ptr, r))
        && (!StreamPart.IsEthereumAddress(ownAddress) ==> Answered(Error(INVALID_ETHEREUM_ADDRESS), ptr, r))
        && (StreamPart.IsEthereumAddress(ownAddress) && p.Rejected? ==> Answered(Answer([p.failure], [], 0), ptr, r))
    {
      hide ParsePeers, StreamPart.IsEthereumAddress;
      created := null;
      if !StreamPart.IsEthereumAddress(ownAddress) {
        r := Fail(INVALID_ETHEREUM_ADDRESS, ptr);
        return;
      }
      var ds;
      ds, r := ParsePeersChecked(urls, entryPoints, INVALID_ENTRY_POINT_URL, ptr);
      if ds.None? {
        return;
      }
      if !built {
        return null, Escaped;
      }
      // A node with a websocket server and no entry points is its own entry point.
      var wrapper := new StreamrNodeWrapper(h, ds.value == [] && websocketPort == 0);
      if h in streamrNodes {
        streamrNodes[h].Destructor(replaced);
      }
      streamrNodes := streamrNodes[h := wrapper];
      r := Succeed(h, ptr);
      created := wrapper;
    }

    method StreamrNodeDelete(h: Handle, out: StopOutcome, ptr: Ptr) returns (r: Response)
      modifies this, At(h)
      ensures proxyClients == old(proxyClients) && streamrNodes == old(streamrNodes) - {h}
      ensures forall w <- old(At(h)) :: w.View() == Destroy(old(w.View()), out)
      ensures Answered(FINE, ptr, r)
    {
      if h in streamrNodes {
        var node := streamrNodes[h];
        streamrNodes := streamrNodes - {h};
        node.Destructor(out);
      }
      r := Succeed(0, ptr);
    }

    // ----- proxy clients ---------------------------------------------------

    method ProxyClientNew(urls: Urls, ownAddress: string, streamPart: string, h: Handle, ptr: Ptr) returns (r: Response)
      modifies this`proxyClients, this`results
      ensures var (clients, a) := ClientOp(urls, old(proxyClients), ClientNew(ownAddress, streamPart, h));
        proxyClients == clients && Answered(a, ptr, r)
    {
      hide StreamPart.Parse, StreamPart.IsEthereumAddress;
      if !StreamPart.IsEthereumAddress(ownAddress) {
        r := Fail(INVALID_ETHEREUM_ADDRESS, ptr);
        return;
      }
      var part := StreamPart.Parse(streamPart);
      if part.UncaughtError? {
        return Escaped;
      }
      if part.InvalidArgument? {
        r := Fail(INVALID_STREAM_PART_ID, ptr);
        return;
      }
      proxyClients := proxyClients[h := 1];
      r := Succeed(h, ptr);
    }

    method ProxyClientDelete(urls: Urls, h: Handle, ptr: Ptr) returns (r: Response)
      modifies this`proxyClients, this`results
      ensures var (clients, a) := ClientOp(urls, old(proxyClients), ClientDelete(h));
        proxyClients == clients && Answered(a, ptr, r)
    {
      proxyClients := proxyClients - {h};
      r := Succeed(0, ptr);
    }

    /** The loop that turns peers into errors of a result. */
    method CollectErrors(code: Code, peers: seq<Peer>) returns (errors: seq<Failure>)
      ensures errors == Failures(code, peers)
    {
      errors := [];
      for i := 0 to |peers|
        invariant errors == Failures(code, peers[..i])
      {
        errors := errors + [Failure(code, Some(peers[i]))];
      }
      assert peers[..|peers|] == peers;
    }

    method ProxyClientConnect(urls: Urls, h: Handle, proxies: seq<Peer>, failed: seq<Peer>, reached: seq<Peer>,
                              ok: bool, ptr: Ptr)
      returns (r: Response)
      modifies this`results
      ensures var (clients, a) := ClientOp(urls, old(proxyClients), ClientConnect(h, proxies, failed, reached, ok));
        proxyClients == clients && Answered(a, ptr, r)
    {
      hide ParsePeers, Failures;
      if proxies == [] {
        r := Fail(NO_PROXIES_DEFINED, ptr);
        return;
      }
      if h !in proxyClients {
        r := Fail(PROXY_CLIENT_NOT_FOUND, ptr);
        return;
      }
      var peers := ConnectPeers(urls, proxies);
      if peers.Rejected? {
        AddResult([peers.failure], [], ptr);
        return Replied(0, ptr);
      }
      if !ok {
        return Escaped;
      }
      var errors := CollectErrors(PROXY_CONNECTION_FAILED, failed);
      AddResult(errors, reached, ptr);
      return Replied(|reached|, ptr);
    }

    method ProxyClientPublish(urls: Urls, h: Handle, sent: Sent, ptr: Ptr) returns (r: Response)
      modifies this`proxyClients, this`results
      ensures var (clients, a) := ClientOp(urls, old(proxyClients), ClientPublish(h, sent));
        proxyClients == clients && Answered(a, ptr, r)
    {
      hide Failures;
      if h !in proxyClients {
        r := Fail(PROXY_CLIENT_NOT_FOUND, ptr);
        return;
      }
      proxyClients := proxyClients[h := NextInt32(proxyClients[h])];
      var errors := CollectErrors(PROXY_BROADCAST_FAILED, sent.failed);
      if sent.SendThrew? {
        AddResult(errors + [Failure(PROXY_BROADCAST_FAILED, None)], [], ptr);
        return Replied(0, ptr);
      }
      AddResult(errors, sent.reached, ptr);
      return Replied(|sent.reached|, ptr);
    }

    /** The exported calls on a proxy client handle. */
    method OnClient(urls: Urls, c: Call, ptr: Ptr) returns (r: Response)
      requires IsClientCall(c)
      modifies this`proxyClients, this`results
      ensures var (clients, a) := ClientOp(urls, old(proxyClients), c);
        proxyClients == clients && Answered(a, ptr, r)
    {
      hide ClientOp;
      match c
      case ClientNew(ownAddress, part, h) => r := ProxyClientNew(urls, ownAddress, part, h, ptr);
      case ClientDelete(h) => r := ProxyClientDelete(urls, h, ptr);
      case ClientConnect(h, proxies, failed, reached, ok) =>
        r := ProxyClientConnect(urls, h, proxies, failed, reached, ok, ptr);
      case ClientPublish(h, sent) => r := ProxyClientPublish(urls, h, sent, ptr);
    }

    method ProxyClientResultDelete(p: Ptr)
      modifies this`results
      ensures results == old(results) - {p}
    {
      results := results - {p};
    }

    /** The map of nodes goes away: each wrapper in it is destroyed. */
    method Destructor(stops: Handle -> StopOutcome)
      requires OneHandleEach(streamrNodes)
      modifies streamrNodes.Values
      ensures forall h :: h in streamrNodes ==> streamrNodes[h].View() == Destroy(old(streamrNodes[h].View()), stops(h))
    {
      hide Destroy, StreamrNodeWrapper.View, OneHandleEach;
      DestroyAll(streamrNodes, stops);
    }
  }

  ghost predicate OneHandleEach(nodes: map<Handle, StreamrNodeWrapper>) {
    forall h, k :: h in nodes && k in nodes && nodes[h] == nodes[k] ==> h == k
  }

  method DestroyAll(nodes: map<Handle, StreamrNodeWrapper>, stops: Handle -> StopOutcome)
    requires OneHandleEach(nodes)
    modifies nodes.Values
    ensures forall h :: h in nodes ==> nodes[h].View() == Destroy(old(nodes[h].View()), stops(h))
    decreases |nodes|
  {
    hide Destroy, StreamrNodeWrapper.View;
    if nodes == map[] {
      return;
    }
    var h :| h in nodes;
    var node, rest := nodes[h], nodes - {h};
    assert node !in rest.Values && |rest| < |nodes|;
    node.Destructor(stops(h));
    DestroyAll(rest, stops);
    assert forall k :: k in nodes && k != h ==> rest[k] == nodes[k] && nodes[k] != node;
  }

  // ----- the global instance -------------------------------------------------

  /** The library's globals. `made` lists all wrappers ever made, `slots` says
      where in it the wrapper of a handle is. */
  class Globals {
    var libProxyClientApi: LibProxyClientApi?
    const tokens: TokenCounter
    ghost var made: seq<StreamrNodeWrapper>
    ghost var slots: map<Handle, nat>

    ghost predicate Distinct()
      reads this
    {
      forall i, j :: 0 <= i < j < |made| ==> made[i] != made[j]
    }

    ghost predicate Valid()
      reads this, libProxyClientApi
    {
      && Distinct()
      && (libProxyClientApi == null ==> slots == map[])
      && (libProxyClientApi != null ==>
            && libProxyClientApi.tokens == tokens
            && slots.Keys == libProxyClientApi.streamrNodes.Keys
            && forall h :: h in slots ==> slots[h] < |made| && made[slots[h]] == libProxyClientApi.streamrNodes[h]
                                          && made[slots[h]].handle == h)
    }

    ghost function Nodes(): (s: seq<Node>)
      reads this, made
      ensures |s| == |made|
    {
      seq(|made|, i requires 0 <= i < |made| reads this, made => made[i].View())
    }

    ghost function View(): Library
      reads this, libProxyClientApi, tokens, made
    {
      Library(if libProxyClientApi == null then None
              else Some(Api(slots, libProxyClientApi.proxyClients, libProxyClientApi.results)),
              tokens.next, Nodes())
    }

    constructor ()
      ensures Valid() && View() == INITIAL && fresh(tokens) && libProxyClientApi == null && made == []
    {
      tokens := new TokenCounter();
      libProxyClientApi := null;
      made, slots := [], map[];
    }

    method StreamrInitLibrary()
      requires Valid()
      modifies this
      ensures Valid() && View() == Initialized(old(View()))
      ensures made == old(made) && slots == old(slots) && libProxyClientApi != null
      ensures libProxyClientApi == old(libProxyClientApi) || fresh(libProxyClientApi)
    {
      if libProxyClientApi != null {
        return;
      }
      libProxyClientApi := new LibProxyClientApi(tokens);
      assert Nodes() == old(Nodes());
    }

    method StreamrCleanupLibrary(stops: Handle -> StopOutcome)
      requires Valid()
      modifies this, libProxyClientApi, made
      ensures Valid() && View() == Cleanup(old(View()), stops) && made == old(made) && libProxyClientApi == null
    {
      hide Destroy, StreamrNodeWrapper.View;
      if libProxyClientApi == null {
        return;
      }
      libProxyClientApi.Destructor(stops);
      libProxyClientApi := null;
      forall i | 0 <= i < |made|
        ensures made[i].View() == if i in slots.Values then Destroy(old(made[i].View()), stops(made[i].handle)) else old(made[i].View())
      {
        if i in slots.Values {
          var h :| h in slots && slots[h] == i;
        } else {
          assert made[i] !in old(libProxyClientApi.streamrNodes).Values;
        }
      }
      slots := map[];
      assert Nodes() == Cleanup(old(View()), stops).wrappers;
    }

    /** Only the wrapper in slot `i` has changed. */
    twostate lemma SlotChanged(i: nat)
      requires made == old(made) && i < |made| && Distinct()
      requires forall w :: w in made && w != made[i] ==> w.View() == old(w.View())
      ensures Nodes() == old(Nodes())[i := made[i].View()]
    {
      hide StreamrNodeWrapper.View;
    }

    method OnNode(urls: Urls, c: Call, ptr: Ptr) returns (r: Response)
      requires Valid() && libProxyClientApi != null && IsNodeCall(c)
      modifies libProxyClientApi, tokens, made
      ensures Valid() && (View(), r) == Reply(NodeAct(urls, old(View()), old(View()).api.value, c), ptr)
    {
      hide NodeOp, StreamrNodeWrapper.View;
      var api := libProxyClientApi;
      r := api.OnNode(urls, c, ptr);
      if c.node in slots {
        SlotChanged(slots[c.node]);
      } else {
        assert Nodes() == old(Nodes());
      }
    }

    method OnClient(urls: Urls, c: Call, ptr: Ptr) returns (r: Response)
      requires Valid() && libProxyClientApi != null && IsClientCall(c)
      modifies libProxyClientApi
      ensures Valid()
      ensures var lib := old(View());
        var (clients, a) := ClientOp(urls, lib.api.value.clients, c);
        (View(), r) == Reply((lib.(api := Some(lib.api.value.(clients := clients))), a), ptr)
    {
      hide ClientOp, StreamrNodeWrapper.View;
      r := libProxyClientApi.OnClient(urls, c, ptr);
      assert Nodes() == old(Nodes());
    }

    /** Brings the tables up to date after the map has got a new wrapper. */
    ghost method Enlist(h: Handle, node: StreamrNodeWrapper)
      requires libProxyClientApi != null && libProxyClientApi.tokens == tokens && Distinct() && node !in made && node.handle == h
      requires libProxyClientApi.streamrNodes.Keys == slots.Keys + {h} && libProxyClientApi.streamrNodes[h] == node
      requires forall k :: k in slots && k != h ==>
        slots[k] < |made| && made[slots[k]] == libProxyClientApi.streamrNodes[k] && made[slots[k]].handle == k
      modifies this`made, this`slots
      ensures Valid() && made == old(made) + [node] && slots == old(slots)[h := |old(made)|]
      ensures Nodes() == old(Nodes()) + [node.View()]
    {
      hide StreamrNodeWrapper.View;
      slots := slots[h := |made|];
      made := made + [node];
    }

    ghost function Outlived(c: Call, before: seq<Node>): seq<Node>
      requires c.NodeNew?
      reads this
    {
      if c.handle in slots then DestroyAt(before, slots[c.handle], c.replaced) else before
    }

    ghost predicate Accepted(urls: Urls, c: Call)
      requires c.NodeNew?
    {
      StreamPart.IsEthereumAddress(c.ownAddress) && ParsePeers(urls, c.entryPoints, INVALID_ENTRY_POINT_URL).Parsed? && c.built
    }

    ghost function Fresh(urls: Urls, c: Call): Node
      requires c.NodeNew? && Accepted(urls, c)
    {
      NewNode(c.handle, ParsePeers(urls, c.entryPoints, INVALID_ENTRY_POINT_URL).descriptors == [] && c.websocketPort == 0)
    }

    /** Creating a node, as far as the map of handles goes. */
    method StoreNew(urls: Urls, c: Call, ptr: Ptr) returns (node: StreamrNodeWrapper?, r: Response)
      requires Valid() && libProxyClientApi != null && c.NodeNew?
      modifies libProxyClientApi, made
      ensures node != null <==> Accepted(urls, c)
      ensures node == null ==> Valid() && Nodes() == old(Nodes())
      ensures node != null ==> fresh(node) && node.View() == Fresh(urls, c) && Nodes() == Outlived(c, old(Nodes()))
      ensures node != null ==> libProxyClientApi.streamrNodes == old(libProxyClientApi.streamrNodes)[c.handle := node]
      ensures libProxyClientApi.proxyClients == old(libProxyClientApi.proxyClients)
      ensures libProxyClientApi.Answered(NodeNewAct(urls, old(View()), old(View()).api.value, c).1, ptr, r)
    {
      hide ParsePeers, StreamPart.IsEthereumAddress, Destroy, StreamrNodeWrapper.View;
      node, r := libProxyClientApi.StreamrNodeNew(urls, c.ownAddress, c.entryPoints, c.websocketPort, c.built, c.handle, c.replaced, ptr);
      if node == null || c.handle !in slots {
        assert Nodes() == old(Nodes());
      } else {
        SlotChanged(slots[c.handle]);
      }
    }

    method StreamrNodeNew(urls: Urls, c: Call, ptr: Ptr) returns (r: Response)
      requires Valid() && libProxyClientApi != null && c.NodeNew?
      modifies this`made, this`slots, libProxyClientApi, made
      ensures Valid() && (View(), r) == Reply(NodeNewAct(urls, old(View()), old(View()).api.value, c), ptr)
      ensures forall w :: w in made && w !in old(made) ==> fresh(w)
    {
      hide ParsePeers, StreamPart.IsEthereumAddress, Destroy, Nodes, StreamrNodeWrapper.View;
      var node;
      node, r := StoreNew(urls, c, ptr);
      if node != null {
        Enlist(c.handle, node);
      }
    }

    /** Deleting a node, in terms of the tables. */
    method DropSlot(h: Handle, out: StopOutcome, ptr: Ptr) returns (r: Response)
      requires Valid() && libProxyClientApi != null
      modifies this`slots, libProxyClientApi, made
      ensures Valid() && libProxyClientApi.proxyClients == old(libProxyClientApi.proxyClients)
      ensures libProxyClientApi.Answered(FINE, ptr, r) && slots == old(slots) - {h}
      ensures Nodes() == if h in old(slots) then DestroyAt(old(Nodes()), old(slots)[h], out) else old(Nodes())
    {
      hide Destroy, StreamrNodeWrapper.View;
      r := libProxyClientApi.StreamrNodeDelete(h, out, ptr);
      if h in slots {
        SlotChanged(slots[h]);
      } else {
        assert Nodes() == old(Nodes());
      }
      slots := slots - {h};
    }

    method StreamrNodeDelete(h: Handle, out: StopOutcome, ptr: Ptr) returns (r: Response)
      requires Valid() && libProxyClientApi != null
      modifies this`slots, libProxyClientApi, made
      ensures Valid() && (View(), r) == Reply(NodeDeleteAct(old(View()), old(View()).api.value, NodeDelete(h, out)), ptr)
    {
      hide DestroyAt, Valid, Nodes;
      r := DropSlot(h, out, ptr);
      assert h !in old(slots) ==> slots == old(slots);
    }

    method StreamrResultDelete(p: Ptr)
      requires Valid() && libProxyClientApi != null
      modifies libProxyClientApi
      ensures Valid()
      ensures View() == old(View()).(api := Some(old(View()).api.value.(results := old(View()).api.value.results - {p})))
    {
      hide StreamrNodeWrapper.View;
      libProxyClientApi.ProxyClientResultDelete(p);
      assert Nodes() == old(Nodes());
    }

    /** Any exported call; all but init and cleanup go through `getProxyClientApi`,
        so that the instance is never null when it is used. */
    method Perform(urls: Urls, c: Call, ptr: Ptr) returns (r: Response)
      requires Valid()
      modifies this, libProxyClientApi, tokens, made
      ensures Valid() && (View(), r) == Step(urls, old(View()), c, ptr)
      ensures libProxyClientApi == null || libProxyClientApi == old(libProxyClientApi) || fresh(libProxyClientApi)
      ensures forall w :: w in made && w !in old(made) ==> fresh(w)
    {
      hide Valid, View, NodeAct, NodeNewAct, NodeDeleteAct, ClientOp, Reply, Cleanup;
      if c.CleanupLibrary? {
        StreamrCleanupLibrary(c.stops);
        return NoResult;
      }
      StreamrInitLibrary();
      ViewHasInstance();
      if c.InitLibrary? {
        return NoResult;
      }
      if c.ResultDelete? {
        StreamrResultDelete(c.result);
        return NoResult;
      }
      if c.NodeNew? {
        r := StreamrNodeNew(urls, c, ptr);
      } else if c.NodeDelete? {
        r := StreamrNodeDelete(c.node, c.stop, ptr);
      } else if IsClientCall(c) {
        r := OnClient(urls, c, ptr);
      } else {
        r := OnNode(urls, c, ptr);
      }
    }

    lemma ViewHasInstance()
      ensures View().api.Some? <==> libProxyClientApi != null
    {
    }
  }

  /** A process that makes the calls of a run one after another is in the state
      that the run leads to, so that every theorem about runs is about it. */
  method Serve(urls: Urls, run: Run) returns (g: Globals)
    ensures g.Valid() && g.View() == Exec(urls, run)
  {
    hide Step, Globals.Valid, Globals.View;
    g := new Globals();
    assert run[..0] == [];
    for k := 0 to |run|
      invariant fresh(g) && fresh(g.tokens) && (g.libProxyClientApi == null || fresh(g.libProxyClientApi))
      invariant forall i :: 0 <= i < |g.made| ==> fresh(g.made[i])
      invariant g.Valid() && g.View() == Exec(urls, run[..k])
    {
      ghost var was := g.made;
      var _ := g.Perform(urls, run[k].0, run[k].1);
      assert forall i :: 0 <= i < |g.made| ==> g.made[i] in was || fresh(g.made[i]);
      assert run[..k + 1][..k] == run[..k];
    }
    assert run[..|run|] == run;
  }
}
