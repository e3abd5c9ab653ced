/** The serialized behaviour of the C API as a state machine: registries,
    node flags, subscriptions, results and the calls that reach the network. */
module NodeSpec {
  import opened Options
  import opened PeerList
  import StreamPart

  type Handle = nat
  type Token = nat
  type Ptr = nat       // address of a result

  // ----- one node ----------------------------------------------------------

  /** Calls that reach the network node. */
  datatype NetCall =
    | NetStart(join: bool)
    | NetJoinDht
    | NetStop
    | NetSetEntryPoints(part: string, peers: seq<Descriptor>)
    | NetJoin(part: string)
    | NetLeave(part: string)
    | NetBroadcast(message: StreamPart.Message, sequenceNumber: int)
    | NetNeighbors(part: string)
    | NetSetProxies(part: string, peers: seq<Descriptor>, subscribing: bool, count: Option<nat>)
    | NetAddListener(token: Token)
    | NetRemoveListener(token: Token)

  /** A message listener on the network node and the callback data it passes on. */
  datatype Installed = Installed(filter: StreamPart.Listener, userData: nat)

  /** A StreamrNodeWrapper with the network node it owns. `isolated` means that
      the network node has no entry points. */
  datatype Node = Node(
    handle: Handle,
    isolated: bool,
    started: bool,
    stopped: bool,
    destroyed: bool,
    sequenceNumber: int,
    subscriptions: map<Handle, Token>,
    listeners: map<Token, Installed>,
    trace: seq<NetCall>)

  function NewNode(handle: Handle, isolated: bool): Node {
    Node(handle, isolated, false, false, false, 1, map[], map[], [])
  }

  /** A network stop removes all listeners; if it throws, some may be left. */
  datatype StopOutcome = StopReturned | StopThrew(kept: set<Token>)

  function Survivors(listeners: map<Token, Installed>, out: StopOutcome): map<Token, Installed> {
    if out.StopReturned? then map[] else map t | t in listeners && t in out.kept :: listeners[t]
  }

  /** `StreamrNodeWrapper::stop`. */
  function StopNode(n: Node, out: StopOutcome): Node {
    if n.started && !n.stopped then
      n.(stopped := true, listeners := Survivors(n.listeners, out), trace := n.trace + [NetStop])
    else n
  }

  /** The destructor stops the node and releases the network node. */
  function Destroy(n: Node, out: StopOutcome): Node {
    StopNode(n, out).(destroyed := true, listeners := map[])
  }

  datatype StartOutcome = StartOutcome(start: bool, joinDht: bool, teardown: StopOutcome)

  predicate StartSucceeds(n: Node, out: StartOutcome) {
    out.start && (n.isolated ==> out.joinDht)
  }

  function StartTried(n: Node, out: StartOutcome): Node {
    n.(started := true,
       trace := n.trace + [NetStart(!n.isolated)] + (if n.isolated && out.start then [NetJoinDht] else []))
  }

  function StartNode(n: Node, out: StartOutcome): Node {
    if StartSucceeds(n, out) then StartTried(n, out)
    else StopNode(StartTried(n, out), out.teardown).(stopped := true)
  }

  /** `fetch_add(1)` on an int32_t. */
  function NextInt32(i: int): int { if i == 0x7fff_ffff then -0x8000_0000 else i + 1 }

  function Log(n: Node, calls: seq<NetCall>): Node { n.(trace := n.trace + calls) }

  /** `addMessageListener` followed by `emplace`, which keeps an entry that is already there. */
  function AddSubscription(n: Node, handle: Handle, token: Token, l: Installed): Node {
    n.(listeners := n.listeners[token := l],
       subscriptions := if handle in n.subscriptions then n.subscriptions else n.subscriptions[handle := token],
       trace := n.trace + [NetAddListener(token)])
  }

  function RemoveSubscription(n: Node, handle: Handle): Node
    requires handle in n.subscriptions
  {
    var token := n.subscriptions[handle];
    n.(subscriptions := n.subscriptions - {handle},
       listeners := n.listeners - {token},
       trace := n.trace + [NetRemoveListener(token)])
  }

  // ----- calls -------------------------------------------------------------

  datatype Sent = Sent(failed: seq<Peer>, reached: seq<Peer>) | SendThrew(failed: seq<Peer>)

  /** A call with its arguments and with what its environment decides: random
      handles and the outcome of foreign calls. */
  datatype Call =
    | InitLibrary
    | CleanupLibrary(stops: Handle -> StopOutcome)
    | ResultDelete(result: Ptr)
    | NodeNew(ownAddress: string, entryPoints: seq<Peer>, websocketPort: nat, built: bool, handle: Handle, replaced: StopOutcome)
    | NodeDelete(node: Handle, stop: StopOutcome)
    | NodeStart(node: Handle, start: StartOutcome)
    | NodeStop(node: Handle, stop: StopOutcome)
    | NodeUnsubscribe(node: Handle, subscription: Handle)
    | NodeJoin(node: Handle, streamPart: string, entryPoints: seq<Peer>, entryOk: bool, ok: bool)
    | NodeLeave(node: Handle, streamPart: string, ok: bool)
    | NodePublish(node: Handle, streamPart: string, content: seq<bv8>, built: bool, ok: bool)
    | NodeSubscribe(node: Handle, streamPart: string, callback: bool, userData: nat, drawn: nat, handle: Handle, ok: bool)
    | NodeNeighbors(node: Handle, streamPart: string, count: nat, ok: bool)
    | NodeSetProxies(node: Handle, streamPart: string, proxies: seq<Peer>, direction: int, connections: nat, ok: bool)
    | ClientNew(ownAddress: string, streamPart: string, handle: Handle)
    | ClientDelete(client: Handle)
    | ClientConnect(client: Handle, proxies: seq<Peer>, failed: seq<Peer>, reached: seq<Peer>, ok: bool)
    | ClientPublish(client: Handle, sent: Sent)

  /** What a call puts into its result and returns; or an exception leaves it. */
  datatype Answer = Answer(errors: seq<Failure>, successful: seq<Peer>, value: nat) | Throw

  const FINE := Answer([], [], 0)

  function Error(code: Code): Answer { Answer([Failure(code, None)], [], 0) }

  /** Ends an operation whose last foreign call returned (`ok`) or threw. */
  function Finish(ok: bool, value: nat): Answer {
    if ok then Answer([], [], value) else Error(NODE_OPERATION_FAILED)
  }

  // ----- operations on one node --------------------------------------------

  predicate NeedsRunning(c: Call) {
    c.NodeJoin? || c.NodeLeave? || c.NodePublish? || c.NodeSubscribe? || c.NodeNeighbors? || c.NodeSetProxies?
  }

  predicate IsNodeCall(c: Call) {
    c.NodeStart? || c.NodeStop? || c.NodeUnsubscribe? || NeedsRunning(c)
  }

  /** The node afterwards, the next listener token, and the answer. */
  datatype Outcome = Outcome(node: Node, nextToken: Token, answer: Answer)

  function StartOp(n: Node, token: Token, out: StartOutcome): Outcome {
    if n.stopped then Outcome(n, token, Error(NODE_STOPPED))
    else if n.started then Outcome(n, token, Error(NODE_ALREADY_STARTED))
    else Outcome(StartNode(n, out), token, Finish(StartSucceeds(n, out), 0))
  }

  function StopOp(n: Node, token: Token, out: StopOutcome): Outcome {
    if !n.started then Outcome(n, token, Error(NODE_NOT_STARTED))
    else Outcome(StopNode(n, out), token, Finish(n.stopped || out.StopReturned?, 0))
  }

  function UnsubscribeOp(n: Node, token: Token, sub: Handle): Outcome {
    if sub !in n.subscriptions then Outcome(n, token, Error(SUBSCRIPTION_NOT_FOUND))
    else Outcome(RemoveSubscription(n, sub), token, FINE)
  }

  function JoinOp(urls: Urls, n: Node, token: Token, part: string, c: Call): Outcome
    requires c.NodeJoin?
  {
    match ParsePeers(urls, c.entryPoints, INVALID_ENTRY_POINT_URL)
    case Rejected(f) => Outcome(n, token, Answer([f], [], 0))
    case Parsed(ds) =>
      var entry := if ds == [] then [] else [NetSetEntryPoints(part, ds)];
      if ds != [] && !c.entryOk then Outcome(Log(n, entry), token, Error(NODE_OPERATION_FAILED))
      else Outcome(Log(n, entry + [NetJoin(part)]), token, Finish(c.ok, 0))
  }

  /** The sequence number is taken before the message is built; `built` says
      whether building and signing return. */
  function PublishOp(n: Node, token: Token, part: string, c: Call): Outcome
    requires c.NodePublish?
  {
    var n' := n.(sequenceNumber := NextInt32(n.sequenceNumber));
    match StreamPart.MessageFor(part, c.content)
    case Some(m) =>
      if c.built then Outcome(Log(n', [NetBroadcast(m, n.sequenceNumber)]), token, Finish(c.ok, 0))
      else Outcome(n', token, Error(NODE_OPERATION_FAILED))
    case None => Outcome(n', token, Error(NODE_OPERATION_FAILED))
  }

  /** Tokens come from one counter for the whole process; `drawn` of them went
      to other emitters since the last one. */
  function SubscribeOp(n: Node, token: Token, part: string, c: Call): Outcome
    requires c.NodeSubscribe?
  {
    var joined := Log(n, [NetJoin(part)]);
    match StreamPart.ListenerFor(c.node, part)
    case Some(l) =>
      if c.ok then
        Outcome(AddSubscription(joined, c.handle, token + c.drawn, Installed(l, c.userData)), token + c.drawn + 1,
                Finish(true, c.handle))
      else Outcome(joined, token, Error(NODE_OPERATION_FAILED))
    case None => Outcome(joined, token, Error(NODE_OPERATION_FAILED))
  }

  function SetProxiesOp(urls: Urls, n: Node, token: Token, part: string, c: Call): Outcome
    requires c.NodeSetProxies?
  {
    if c.direction != 0 && c.direction != 1 then Outcome(n, token, Error(NODE_OPERATION_FAILED))
    else
      match ParsePeers(urls, c.proxies, INVALID_PROXY_URL)
      case Rejected(f) => Outcome(n, token, Answer([f], [], 0))
      case Parsed(ds) =>
        var count := if c.connections == 0 then None else Some(c.connections);
        Outcome(Log(n, [NetSetProxies(part, ds, c.direction == 1, count)]), token, Finish(c.ok, 0))
  }

  /** A guarded operation once the node is known to run and the id is canonical. */
  function PartOp(urls: Urls, n: Node, token: Token, part: string, c: Call): Outcome
    requires NeedsRunning(c)
  {
    if c.NodeJoin? then JoinOp(urls, n, token, part, c)
    else if c.NodeLeave? then Outcome(Log(n, [NetLeave(part)]), token, Finish(c.ok, 0))
    else if c.NodePublish? then PublishOp(n, token, part, c)
    else if c.NodeSubscribe? then SubscribeOp(n, token, part, c)
    else if c.NodeNeighbors? then Outcome(Log(n, [NetNeighbors(part)]), token, if c.ok then Finish(true, c.count) else Throw)
    else SetProxiesOp(urls, n, token, part, c)
  }

  /** `checkStreamrNodeRunning`. */
  function Guard(n: Node): Option<Code> {
    if !n.started then Some(NODE_NOT_STARTED)
    else if n.stopped then Some(NODE_STOPPED)
    else None
  }

  function GuardedOp(urls: Urls, n: Node, token: Token, c: Call): Outcome
    requires NeedsRunning(c)
  {
    if Guard(n).Some? then Outcome(n, token, Error(Guard(n).value))
    else if c.NodeSubscribe? && !c.callback then Outcome(n, token, Error(NODE_OPERATION_FAILED))
    else
      match StreamPart.Canonical(c.streamPart)
      case InvalidArgument => Outcome(n, token, Error(INVALID_STREAM_PART_ID))
      case UncaughtError => Outcome(n, token, Throw)
      case Ok(part) => PartOp(urls, n, token, part, c)
  }

  function NodeOp(urls: Urls, n: Node, token: Token, c: Call): Outcome
    requires IsNodeCall(c)
  {
    if c.NodeStart? then StartOp(n, token, c.start)
    else if c.NodeStop? then StopOp(n, token, c.stop)
    else if c.NodeUnsubscribe? then UnsubscribeOp(n, token, c.subscription)
    else GuardedOp(urls, n, token, c)
  }

  // ----- proxy clients -----------------------------------------------------

  function Failures(code: Code, peers: seq<Peer>): seq<Failure> {
    seq(|peers|, i requires 0 <= i < |peers| => Failure(code, Some(peers[i])))
  }

  predicate IsClientCall(c: Call) {
    c.ClientNew? || c.ClientDelete? || c.ClientConnect? || c.ClientPublish?
  }

  /** A client is known by its next sequence number. */
  function ClientOp(urls: Urls, clients: map<Handle, int>, c: Call): (map<Handle, int>, Answer)
    requires IsClientCall(c)
  {
    if c.ClientNew? then
      if !StreamPart.IsEthereumAddress(c.ownAddress) then (clients, Error(INVALID_ETHEREUM_ADDRESS))
      else
        match StreamPart.Parse(c.streamPart)
        case InvalidArgument => (clients, Error(INVALID_STREAM_PART_ID))
        case UncaughtError => (clients, Throw)
        case Ok(_) => (clients[c.handle := 1], Finish(true, c.handle))
    else if c.ClientDelete? then (clients - {c.client}, FINE)
    else if c.ClientConnect? then
      if c.proxies == [] then (clients, Error(NO_PROXIES_DEFINED))
      else if c.client !in clients then (clients, Error(PROXY_CLIENT_NOT_FOUND))
      else
        match ParsePeers(urls, c.proxies, INVALID_PROXY_URL)
        case Rejected(f) => (clients, Answer([f], [], 0))
        case Parsed(_) =>
          (clients, if c.ok then Answer(Failures(PROXY_CONNECTION_FAILED, c.failed), c.reached, |c.reached|) else Throw)
    else if c.client !in clients then (clients, Error(PROXY_CLIENT_NOT_FOUND))
    else
      var clients' := clients[c.client := NextInt32(clients[c.client])];
      match c.sent
      case Sent(failed, reached) => (clients', Answer(Failures(PROXY_BROADCAST_FAILED, failed), reached, |reached|))
      case SendThrew(failed) =>
        (clients', Answer(Failures(PROXY_BROADCAST_FAILED, failed) + [Failure(PROXY_BROADCAST_FAILED, None)], [], 0))
  }

  // ----- the library -------------------------------------------------------

  datatype Result = Result(errors: seq<Failure>, successful: seq<Peer>)

  /** One LibProxyClientApi; `nodes` maps a handle to an index into `wrappers`. */
  datatype Api = Api(nodes: map<Handle, nat>, clients: map<Handle, int>, results: map<Ptr, Result>)

  /** The global instance, the global token counter, and all wrappers ever
      made, in order of creation. */
  datatype Library = Library(api: Option<Api>, nextToken: Token, wrappers: seq<Node>)

  const EMPTY_API := Api(map[], map[], map[])
  const INITIAL := Library(None, 1, [])

  /** `getProxyClientApi`: re-creates the instance when there is none. */
  function Current(lib: Library): Api {
    if lib.api.Some? then lib.api.value else EMPTY_API
  }

  /** A call returns without a result, returns a value and the address of a
      result, or lets an exception escape. */
  datatype Response = NoResult | Replied(value: nat, result: Ptr) | Escaped

  /** A dangling index never occurs (see `Registered`); it would change nothing. */
  function DestroyAt(wrappers: seq<Node>, i: nat, out: StopOutcome): seq<Node> {
    if i < |wrappers| then wrappers[i := Destroy(wrappers[i], out)] else wrappers
  }

  /** `built` says whether creating the network node returns; nothing catches
      an exception there. */
  function NodeNewAct(urls: Urls, lib: Library, api: Api, c: Call): (Library, Answer)
    requires c.NodeNew?
  {
    if !StreamPart.IsEthereumAddress(c.ownAddress) then (lib, Error(INVALID_ETHEREUM_ADDRESS))
    else
      match ParsePeers(urls, c.entryPoints, INVALID_ENTRY_POINT_URL)
      case Rejected(f) => (lib, Answer([f], [], 0))
      case Parsed(ds) =>
        if c.built then
          var kept := if c.handle in api.nodes then DestroyAt(lib.wrappers, api.nodes[c.handle], c.replaced) else lib.wrappers;
          (lib.(wrappers := kept + [NewNode(c.handle, ds == [] && c.websocketPort == 0)],
                api := Some(api.(nodes := api.nodes[c.handle := |kept|]))),
           Finish(true, c.handle))
        else (lib, Throw)
  }

  function NodeDeleteAct(lib: Library, api: Api, c: Call): (Library, Answer)
    requires c.NodeDelete?
  {
    if c.node !in api.nodes then (lib, FINE)
    else (lib.(wrappers := DestroyAt(lib.wrappers, api.nodes[c.node], c.stop),
               api := Some(api.(nodes := api.nodes - {c.node}))), FINE)
  }

  function NodeAct(urls: Urls, lib: Library, api: Api, c: Call): (Library, Answer)
    requires IsNodeCall(c)
  {
    if c.node !in api.nodes || api.nodes[c.node] >= |lib.wrappers| then (lib, Error(NODE_NOT_FOUND))
    else
      var i := api.nodes[c.node];
      var o := NodeOp(urls, lib.wrappers[i], lib.nextToken, c);
      (lib.(wrappers := lib.wrappers[i := o.node], nextToken := o.nextToken), o.answer)
  }

  predicate MakesResult(c: Call) {
    !c.InitLibrary? && !c.CleanupLibrary? && !c.ResultDelete?
  }

  /** What a call does before it publishes its result. */
  function Act(urls: Urls, lib: Library, c: Call): (Library, Answer)
    requires lib.api.Some? && MakesResult(c)
  {
    var api := lib.api.value;
    if c.NodeNew? then NodeNewAct(urls, lib, api, c)
    else if c.NodeDelete? then NodeDeleteAct(lib, api, c)
    else if IsClientCall(c) then
      var (clients, a) := ClientOp(urls, api.clients, c);
      (lib.(api := Some(api.(clients := clients))), a)
    else NodeAct(urls, lib, api, c)
  }

  function Publish(lib: Library, ptr: Ptr, a: Answer): (Library, Response)
    requires a.Answer?
  {
    var api := Current(lib);
    (lib.(api := Some(api.(results := api.results[ptr := Result(a.errors, a.successful)]))), Replied(a.value, ptr))
  }

  /** How a call ends: with its result published, or with an exception. */
  function Reply(done: (Library, Answer), ptr: Ptr): (Library, Response) {
    if done.1.Throw? then (done.0, Escaped) else Publish(done.0, ptr, done.1)
  }

  /** Deletes the instance: the wrappers still in its map are destroyed. */
  function Cleanup(lib: Library, stops: Handle -> StopOutcome): Library {
    if lib.api.None? then lib
    else
      lib.(api := None,
           wrappers := seq(|lib.wrappers|, i requires 0 <= i < |lib.wrappers| =>
             var n := lib.wrappers[i];
             if i in lib.api.value.nodes.Values then Destroy(n, stops(n.handle)) else n))
  }

  function Initialized(lib: Library): Library { lib.(api := Some(Current(lib))) }

  function Step(urls: Urls, lib: Library, c: Call, ptr: Ptr): (Library, Response) {
    if c.InitLibrary? then (Initialized(lib), NoResult)
    else if c.CleanupLibrary? then (Cleanup(lib, c.stops), NoResult)
    else if c.ResultDelete? then
      var api := Current(lib);
      (lib.(api := Some(api.(results := api.results - {c.result}))), NoResult)
    else Reply(Act(urls, Initialized(lib), c), ptr)
  }

  /** A serialized run: calls with the address each new result gets. */
  type Run = seq<(Call, Ptr)>

  function Exec(urls: Urls, run: Run): Library {
    if run == [] then INITIAL
    else Step(urls, Exec(urls, run[..|run| - 1]), run[|run| - 1].0, run[|run| - 1].1).0
  }

  /** The response to the k-th call of a run. */
  function ResponseAt(urls: Urls, run: Run, k: nat): Response
    requires k < |run|
  {
    Step(urls, Exec(urls, run[..k]), run[k].0, run[k].1).1
  }
}
