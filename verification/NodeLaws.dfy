/** One law for each call of the C API: which network calls it makes, in which
    order and with which arguments, what it changes, and what it answers. The
    laws speak of library states before and after, of the arguments, and of
    what the id and the peers parse to. */
module NodeLaws {
  import opened Options
  import opened PeerList
  import opened NodeSpec
  import opened NodeLife
  import opened NodeRuns
  import StreamPart

  // ----- vocabulary --------------------------------------------------------

  /** The call on wrapper `i` left it as `m`, published one result with the
      given errors and no peers, and changed nothing else. */
  ghost predicate Ends(lib: Library, i: nat, m: Node, errors: seq<Failure>, value: nat, ptr: Ptr, after: (Library, Response)) {
    && lib.api.Some? && i < |lib.wrappers|
    && after.0 == lib.(wrappers := lib.wrappers[i := m],
                       api := Some(lib.api.value.(results := lib.api.value.results[ptr := Result(errors, [])])))
    && after.1 == Replied(value, ptr)
  }

  /** The call did nothing but publish one error without a peer. */
  ghost predicate Refused(lib: Library, i: nat, code: Code, ptr: Ptr, after: (Library, Response)) {
    i < |lib.wrappers| && Ends(lib, i, lib.wrappers[i], [Failure(code, None)], 0, ptr, after)
  }

  function ErrorUnless(ok: bool): seq<Failure> { if ok then [] else [Failure(NODE_OPERATION_FAILED, None)] }

  /** A guarded call on a running node with an accepted id. */
  ghost predicate Admitted(lib: Library, c: Call, i: nat) {
    && NeedsRunning(c) && LeadsTo(lib, c.node, i) && FlagPhase(lib.wrappers[i]) == Running
    && StreamPart.Parse(c.streamPart).Ok?
  }

  /** The canonical spelling of the part that the call names. */
  function Part(c: Call): string
    requires NeedsRunning(c) && StreamPart.Parse(c.streamPart).Ok?
  {
    StreamPart.Spell(StreamPart.Parse(c.streamPart).value)
  }

  ghost predicate AllGood(urls: Urls, peers: seq<Peer>) {
    forall i :: 0 <= i < |peers| ==> IsGoodPeer(urls, peers[i])
  }

  /** One descriptor for each peer, in order. */
  function Described(peers: seq<Peer>): (r: seq<Descriptor>)
    ensures |r| == |peers| && forall i :: 0 <= i < |r| ==> r[i] == Descriptor(peers[i])
  {
    seq(|peers|, i requires 0 <= i < |peers| => Descriptor(peers[i]))
  }

  lemma PeersDecide(urls: Urls, peers: seq<Peer>, badUrl: Code)
    ensures AllGood(urls, peers) ==> ParsePeers(urls, peers, badUrl) == Parsed(Described(peers))
    ensures forall k: nat :: IsFirstBad(urls, peers, k) ==> ParsePeers(urls, peers, badUrl) == Rejected(FaultOf(peers[k], badUrl))
  {
    hide ParsePeers, IsGoodPeer;
    ParsePeersOutcome(urls, peers, badUrl);
    var p := ParsePeers(urls, peers, badUrl);
    if AllGood(urls, peers) {
      assert p.descriptors == Described(peers);
    }
    forall k: nat | IsFirstBad(urls, peers, k) ensures p == Rejected(FaultOf(peers[k], badUrl)) {
      assert p.Rejected?;
      var m: nat :| IsFirstBad(urls, peers, m) && p.failure == FaultOf(peers[m], badUrl);
      assert m == k;
    }
  }

  // ----- from a step to the operation on one node --------------------------

  lemma StepOnNode(urls: Urls, lib: Library, c: Call, i: nat, ptr: Ptr)
    requires IsNodeCall(c) && LeadsTo(lib, c.node, i)
    ensures var o := NodeOp(urls, lib.wrappers[i], lib.nextToken, c);
      Step(urls, lib, c, ptr) == Reply((lib.(wrappers := lib.wrappers[i := o.node], nextToken := o.nextToken), o.answer), ptr)
  {
    hide NodeOp, Reply;
    assert Initialized(lib) == lib;
  }

  lemma ReplyEnds(lib: Library, i: nat, m: Node, errors: seq<Failure>, value: nat, ptr: Ptr)
    requires lib.api.Some? && i < |lib.wrappers|
    ensures Ends(lib, i, m, errors, value, ptr,
                 Reply((lib.(wrappers := lib.wrappers[i := m], nextToken := lib.nextToken), Answer(errors, [], value)), ptr))
  {
  }

  /** How a step ends, once the operation on its node is known. */
  lemma OpEnds(urls: Urls, lib: Library, c: Call, i: nat, ptr: Ptr, m: Node, errors: seq<Failure>, value: nat)
    requires IsNodeCall(c) && LeadsTo(lib, c.node, i)
    requires NodeOp(urls, lib.wrappers[i], lib.nextToken, c) == Outcome(m, lib.nextToken, Answer(errors, [], value))
    ensures Ends(lib, i, m, errors, value, ptr, Step(urls, lib, c, ptr))
  {
    hide NodeOp, Step, Reply, Ends;
    StepOnNode(urls, lib, c, i, ptr);
    ReplyEnds(lib, i, m, errors, value, ptr);
  }

  /** An admitted call is carried out on the canonical id. */
  lemma AdmittedOp(urls: Urls, lib: Library, c: Call, i: nat)
    requires Admitted(lib, c, i) && (c.NodeSubscribe? ==> c.callback)
    ensures NodeOp(urls, lib.wrappers[i], lib.nextToken, c) == PartOp(urls, lib.wrappers[i], lib.nextToken, Part(c), c)
  {
    hide StreamPart.Parse, StreamPart.Spell, PartOp;
  }

  // ----- start and stop ----------------------------------------------------

  /** Starting. A stopped node and a running one are refused. A new node joins
      the network as it starts, unless it is isolated; an isolated one, once
      started, joins its own DHT. If that succeeds it runs and the result has no
      errors; otherwise its network is stopped once, it is stopped, and the
      result has exactly one error. */
  lemma StartLaw(urls: Urls, lib: Library, h: Handle, i: nat, out: StartOutcome, ptr: Ptr)
    requires LibInv(lib) && LeadsTo(lib, h, i)
    ensures var n, after := lib.wrappers[i], Step(urls, lib, NodeStart(h, out), ptr);
      var succeeds := out.start && (n.isolated ==> out.joinDht);
      && (FlagPhase(n) == Stopped ==> Refused(lib, i, NODE_STOPPED, ptr, after))
      && (FlagPhase(n) == Running ==> Refused(lib, i, NODE_ALREADY_STARTED, ptr, after))
      && (FlagPhase(n) == New ==>
            Ends(lib, i,
                 n.(started := true, stopped := !succeeds,
                    trace := [NetStart(!n.isolated)] + (if n.isolated && out.start then [NetJoinDht] else [])
                             + (if succeeds then [] else [NetStop])),
                 ErrorUnless(succeeds), 0, ptr, after))
  {
    hide TracePhase, Step, Ends;
    var n, c := lib.wrappers[i], NodeStart(h, out);
    assert NodeInv(n, lib.nextToken);
    var succeeds := out.start && (n.isolated ==> out.joinDht);
    if FlagPhase(n) == New {
      PhaseIsOrder(n.trace);
      assert n.trace == [];
      var m := n.(started := true, stopped := !succeeds,
                  trace := [NetStart(!n.isolated)] + (if n.isolated && out.start then [NetJoinDht] else [])
                           + (if succeeds then [] else [NetStop]));
      NewStart(urls, n, lib.nextToken, c);
      OpEnds(urls, lib, c, i, ptr, m, ErrorUnless(succeeds), 0);
    } else {
      OpEnds(urls, lib, c, i, ptr, n, [Failure(if n.stopped then NODE_STOPPED else NODE_ALREADY_STARTED, None)], 0);
    }
  }

  lemma NewStart(urls: Urls, n: Node, token: Token, c: Call)
    requires c.NodeStart? && !n.started && !n.stopped && n.trace == [] && n.listeners == map[]
    ensures var succeeds := c.start.start && (n.isolated ==> c.start.joinDht);
      NodeOp(urls, n, token, c)
      == Outcome(n.(started := true, stopped := !succeeds,
                    trace := [NetStart(!n.isolated)] + (if n.isolated && c.start.start then [NetJoinDht] else [])
                             + (if succeeds then [] else [NetStop])),
                 token, Answer(ErrorUnless(succeeds), [], 0))
  {
    var t := [NetStart(!n.isolated)] + (if n.isolated && c.start.start then [NetJoinDht] else []);
    assert n.trace + [NetStart(!n.isolated)] == [NetStart(!n.isolated)];
    assert t + [] == t;
    assert Survivors(n.listeners, c.start.teardown) == map[];
  }

  /** So a start from New answers without errors if and only if the node then
      runs, and otherwise with exactly one NODE_OPERATION_FAILED. */
  lemma StartAnswer(urls: Urls, lib: Library, h: Handle, i: nat, out: StartOutcome, ptr: Ptr)
    requires LibInv(lib) && LeadsTo(lib, h, i) && FlagPhase(lib.wrappers[i]) == New
    ensures var lib' := Step(urls, lib, NodeStart(h, out), ptr).0;
      && lib'.api.Some? && ptr in lib'.api.value.results && i < |lib'.wrappers|
      && (lib'.api.value.results[ptr] == Result([], []) <==> FlagPhase(lib'.wrappers[i]) == Running)
      && (lib'.api.value.results[ptr] == Result([Failure(NODE_OPERATION_FAILED, None)], [])
          <==> FlagPhase(lib'.wrappers[i]) == Stopped)
      && FlagPhase(lib'.wrappers[i]) in {Running, Stopped}
  {
    hide Step, LibInv;
    StartLaw(urls, lib, h, i, out, ptr);
  }

  /** Stopping. Only a running node is stopped; a stopped one is left alone
      without an error, a new one is refused. */
  lemma StopLaw(urls: Urls, lib: Library, h: Handle, i: nat, out: StopOutcome, ptr: Ptr)
    requires LibInv(lib) && LeadsTo(lib, h, i)
    ensures var n, after := lib.wrappers[i], Step(urls, lib, NodeStop(h, out), ptr);
      && (FlagPhase(n) == New ==> Refused(lib, i, NODE_NOT_STARTED, ptr, after))
      && (FlagPhase(n) == Stopped ==> Ends(lib, i, n, [], 0, ptr, after))
      && (FlagPhase(n) == Running ==>
            i < |after.0.wrappers|
            && (var listeners := after.0.wrappers[i].listeners;
                && Ends(lib, i, n.(stopped := true, trace := n.trace + [NetStop], listeners := listeners),
                        ErrorUnless(out.StopReturned?), 0, ptr, after)
                && (out.StopReturned? ==> listeners == map[])
                && (forall t :: t in listeners ==> t in n.listeners && listeners[t] == n.listeners[t])))
  {
    hide TracePhase, Step, Ends;
    var n, c := lib.wrappers[i], NodeStop(h, out);
    assert NodeInv(n, lib.nextToken);
    if FlagPhase(n) == New {
      OpEnds(urls, lib, c, i, ptr, n, [Failure(NODE_NOT_STARTED, None)], 0);
    } else if FlagPhase(n) == Stopped {
      OpEnds(urls, lib, c, i, ptr, n, [], 0);
    } else {
      OpEnds(urls, lib, c, i, ptr, StopNode(n, out), ErrorUnless(out.StopReturned?), 0);
      EndsThere(lib, i, StopNode(n, out), ErrorUnless(out.StopReturned?), 0, ptr, Step(urls, lib, c, ptr));
    }
  }

  lemma EndsThere(lib: Library, i: nat, m: Node, errors: seq<Failure>, value: nat, ptr: Ptr, after: (Library, Response))
    requires Ends(lib, i, m, errors, value, ptr, after)
    ensures i < |after.0.wrappers| && after.0.wrappers[i] == m
  {
  }

  // ----- refusals ----------------------------------------------------------

  /** What a running node is spared: a missing callback and a bad id are turned
      away before anything else happens. */
  lemma RefusedWhileRunning(urls: Urls, lib: Library, c: Call, i: nat, ptr: Ptr)
    requires NeedsRunning(c) && LeadsTo(lib, c.node, i) && FlagPhase(lib.wrappers[i]) == Running
    ensures var after := Step(urls, lib, c, ptr);
      && (c.NodeSubscribe? && !c.callback ==> Refused(lib, i, NODE_OPERATION_FAILED, ptr, after))
      && ((c.NodeSubscribe? ==> c.callback) && StreamPart.Parse(c.streamPart).InvalidArgument? ==>
            Refused(lib, i, INVALID_STREAM_PART_ID, ptr, after))
      && ((c.NodeSubscribe? ==> c.callback) && StreamPart.Parse(c.streamPart).UncaughtError? ==> after == (lib, Escaped))
  {
    hide Step, Ends, StreamPart.Parse, StreamPart.Spell, PartOp;
    var n := lib.wrappers[i];
    var p := StreamPart.Parse(c.streamPart);
    if c.NodeSubscribe? && !c.callback {
      OpEnds(urls, lib, c, i, ptr, n, [Failure(NODE_OPERATION_FAILED, None)], 0);
    } else if p.InvalidArgument? {
      OpEnds(urls, lib, c, i, ptr, n, [Failure(INVALID_STREAM_PART_ID, None)], 0);
    } else if p.UncaughtError? {
      StepOnNode(urls, lib, c, i, ptr);
      assert lib.wrappers[i := n] == lib.wrappers;
    }
  }

  // ----- operations on a running node --------------------------------------

  /** Joining: entry points first, if there are any, then the join; each only
      if what comes before has gone well. */
  lemma JoinLaw(urls: Urls, lib: Library, c: Call, i: nat, ptr: Ptr)
    requires c.NodeJoin? && Admitted(lib, c, i)
    ensures var n, after := lib.wrappers[i], Step(urls, lib, c, ptr);
      var entry := [NetSetEntryPoints(Part(c), Described(c.entryPoints))];
      && (forall k: nat :: IsFirstBad(urls, c.entryPoints, k) ==>
            Ends(lib, i, n, [FaultOf(c.entryPoints[k], INVALID_ENTRY_POINT_URL)], 0, ptr, after))
      && (c.entryPoints == [] ==> Ends(lib, i, n.(trace := n.trace + [NetJoin(Part(c))]), ErrorUnless(c.ok), 0, ptr, after))
      && (c.entryPoints != [] && AllGood(urls, c.entryPoints) ==>
            if c.entryOk then Ends(lib, i, n.(trace := n.trace + entry + [NetJoin(Part(c))]), ErrorUnless(c.ok), 0, ptr, after)
            else Ends(lib, i, n.(trace := n.trace + entry), ErrorUnless(false), 0, ptr, after))
  {
    hide Step, Ends, ParsePeers, StreamPart.Parse, StreamPart.Spell, NodeOp, FaultOf, IsGoodPeer;
    var n := lib.wrappers[i];
    AdmittedOp(urls, lib, c, i);
    PeersDecide(urls, c.entryPoints, INVALID_ENTRY_POINT_URL);
    forall k: nat | IsFirstBad(urls, c.entryPoints, k)
      ensures Ends(lib, i, n, [FaultOf(c.entryPoints[k], INVALID_ENTRY_POINT_URL)], 0, ptr, Step(urls, lib, c, ptr))
    {
      OpEnds(urls, lib, c, i, ptr, n, [FaultOf(c.entryPoints[k], INVALID_ENTRY_POINT_URL)], 0);
    }
    if AllGood(urls, c.entryPoints) {
      var entry := [NetSetEntryPoints(Part(c), Described(c.entryPoints))];
      if c.entryPoints == [] {
        assert Described(c.entryPoints) == [];
        OpEnds(urls, lib, c, i, ptr, n.(trace := n.trace + [NetJoin(Part(c))]), ErrorUnless(c.ok), 0);
      } else if c.entryOk {
        assert n.trace + (entry + [NetJoin(Part(c))]) == n.trace + entry + [NetJoin(Part(c))];
        OpEnds(urls, lib, c, i, ptr, n.(trace := n.trace + entry + [NetJoin(Part(c))]), ErrorUnless(c.ok), 0);
      } else {
        OpEnds(urls, lib, c, i, ptr, n.(trace := n.trace + entry), ErrorUnless(false), 0);
      }
    }
  }

  lemma LeaveLaw(urls: Urls, lib: Library, c: Call, i: nat, ptr: Ptr)
    requires c.NodeLeave? && Admitted(lib, c, i)
    ensures var n := lib.wrappers[i];
      Ends(lib, i, n.(trace := n.trace + [NetLeave(Part(c))]), ErrorUnless(c.ok), 0, ptr, Step(urls, lib, c, ptr))
  {
    hide Step, Ends, StreamPart.Parse, StreamPart.Spell, NodeOp;
    var n := lib.wrappers[i];
    AdmittedOp(urls, lib, c, i);
    OpEnds(urls, lib, c, i, ptr, n.(trace := n.trace + [NetLeave(Part(c))]), ErrorUnless(c.ok), 0);
  }

  /** Counting neighbours: the count is returned, or the exception passes. */
  lemma NeighborLaw(urls: Urls, lib: Library, c: Call, i: nat, ptr: Ptr)
    requires c.NodeNeighbors? && Admitted(lib, c, i)
    ensures var n, after := lib.wrappers[i], Step(urls, lib, c, ptr);
      var m := n.(trace := n.trace + [NetNeighbors(Part(c))]);
      if c.ok then Ends(lib, i, m, [], c.count, ptr, after)
      else after == (lib.(wrappers := lib.wrappers[i := m]), Escaped)
  {
    hide Step, Ends, StreamPart.Parse, StreamPart.Spell, NodeOp;
    var n := lib.wrappers[i];
    AdmittedOp(urls, lib, c, i);
    if c.ok {
      OpEnds(urls, lib, c, i, ptr, n.(trace := n.trace + [NetNeighbors(Part(c))]), [], c.count);
    } else {
      StepOnNode(urls, lib, c, i, ptr);
    }
  }

  /** The message that a publish call is to send. */
  function MessageOf(c: Call): StreamPart.Message
    requires c.NodePublish? && StreamPart.Parse(c.streamPart).Ok?
  {
    var part := StreamPart.Parse(c.streamPart).value;
    StreamPart.Message(part.streamId, part.partition, Some(c.content))
  }

  /** The next number of an int32_t counter. */
  function After(i: int): int { if i == 0x7fff_ffff then -0x8000_0000 else i + 1 }

  /** Publishing draws a number and, if the message can be built, broadcasts
      exactly the given bytes to the named part under that number. */
  lemma PublishLaw(urls: Urls, lib: Library, c: Call, i: nat, ptr: Ptr)
    requires c.NodePublish? && Admitted(lib, c, i)
    ensures var n, after := lib.wrappers[i], Step(urls, lib, c, ptr);
      if c.built then
        Ends(lib, i, n.(sequenceNumber := After(n.sequenceNumber),
                        trace := n.trace + [NetBroadcast(MessageOf(c), n.sequenceNumber)]), ErrorUnless(c.ok), 0, ptr, after)
      else Ends(lib, i, n.(sequenceNumber := After(n.sequenceNumber)), ErrorUnless(false), 0, ptr, after)
  {
    hide Step, Ends, StreamPart.Parse, StreamPart.Spell, NodeOp, StreamPart.MessageFor;
    var n := lib.wrappers[i];
    AdmittedOp(urls, lib, c, i);
    SpelledMessage(c);
    if c.built {
      OpEnds(urls, lib, c, i, ptr, n.(sequenceNumber := After(n.sequenceNumber),
                                      trace := n.trace + [NetBroadcast(MessageOf(c), n.sequenceNumber)]), ErrorUnless(c.ok), 0);
    } else {
      OpEnds(urls, lib, c, i, ptr, n.(sequenceNumber := After(n.sequenceNumber)), ErrorUnless(false), 0);
    }
  }

  lemma SpelledMessage(c: Call)
    requires c.NodePublish? && StreamPart.Parse(c.streamPart).Ok?
    ensures StreamPart.MessageFor(Part(c), c.content) == Some(MessageOf(c))
  {
    hide StreamPart.Parse, StreamPart.Spell, StreamPart.IsStreamId;
    StreamPart.ParseGivesPart(c.streamPart);
    StreamPart.ParseSpell(StreamPart.Parse(c.streamPart).value);
  }

  /** Subscribing joins the part and, if that returns, installs a listener for
      exactly that part, with the callback's data, under a new token; the drawn
      handle is returned, and stands for the new token unless it is in use. */
  lemma SubscribeLaw(urls: Urls, lib: Library, c: Call, i: nat, ptr: Ptr)
    requires c.NodeSubscribe? && c.callback && Admitted(lib, c, i)
    ensures var n, after := lib.wrappers[i], Step(urls, lib, c, ptr);
      var part, token := StreamPart.Parse(c.streamPart).value, lib.nextToken + c.drawn;
      if c.ok then
        Ends(lib.(nextToken := token + 1), i,
             n.(trace := n.trace + [NetJoin(Part(c)), NetAddListener(token)],
                listeners := n.listeners[token := Installed(StreamPart.Listener(c.node, Part(c), part.streamId, part.partition), c.userData)],
                subscriptions := map[c.handle := token] + n.subscriptions),
             [], c.handle, ptr, after)
      else Ends(lib, i, n.(trace := n.trace + [NetJoin(Part(c))]), ErrorUnless(false), 0, ptr, after)
  {
    hide Step, Ends, StreamPart.Parse, StreamPart.Spell, NodeOp, StreamPart.ListenerFor, AddSubscription;
    var n := lib.wrappers[i];
    AdmittedOp(urls, lib, c, i);
    SpelledListener(c);
    var part, token := StreamPart.Parse(c.streamPart).value, lib.nextToken + c.drawn;
    if c.ok {
      var l := Installed(StreamPart.Listener(c.node, Part(c), part.streamId, part.partition), c.userData);
      var m := AddSubscription(Log(n, [NetJoin(Part(c))]), c.handle, token, l);
      Added(n, Part(c), c.handle, token, l);
      StepOnNode(urls, lib, c, i, ptr);
      ReplyEnds(lib.(nextToken := token + 1), i, m, [], c.handle, ptr);
    } else {
      OpEnds(urls, lib, c, i, ptr, n.(trace := n.trace + [NetJoin(Part(c))]), ErrorUnless(false), 0);
    }
  }

  lemma Added(n: Node, part: string, h: Handle, token: Token, l: Installed)
    ensures AddSubscription(Log(n, [NetJoin(part)]), h, token, l)
         == n.(trace := n.trace + [NetJoin(part), NetAddListener(token)], listeners := n.listeners[token := l],
               subscriptions := map[h := token] + n.subscriptions)
  {
    assert n.trace + [NetJoin(part)] + [NetAddListener(token)] == n.trace + [NetJoin(part), NetAddListener(token)];
    assert map[h := token] + n.subscriptions == if h in n.subscriptions then n.subscriptions else n.subscriptions[h := token];
  }

  lemma SpelledListener(c: Call)
    requires c.NodeSubscribe? && StreamPart.Parse(c.streamPart).Ok?
    ensures var part := StreamPart.Parse(c.streamPart).value;
      StreamPart.ListenerFor(c.node, Part(c)) == Some(StreamPart.Listener(c.node, Part(c), part.streamId, part.partition))
  {
    hide StreamPart.Parse, StreamPart.Spell, StreamPart.IsStreamId;
    StreamPart.ParseGivesPart(c.streamPart);
    StreamPart.ParseSpell(StreamPart.Parse(c.streamPart).value);
  }

  /** Unsubscribing, in whatever phase: the handle and its listener go. */
  lemma UnsubscribeLaw(urls: Urls, lib: Library, h: Handle, i: nat, sub: Handle, ptr: Ptr)
    requires LeadsTo(lib, h, i)
    ensures var n, after := lib.wrappers[i], Step(urls, lib, NodeUnsubscribe(h, sub), ptr);
      if sub in n.subscriptions then
        Ends(lib, i, n.(subscriptions := n.subscriptions - {sub}, listeners := n.listeners - {n.subscriptions[sub]},
                        trace := n.trace + [NetRemoveListener(n.subscriptions[sub])]), [], 0, ptr, after)
      else Refused(lib, i, SUBSCRIPTION_NOT_FOUND, ptr, after)
  {
    hide Step, Ends;
    var n, c := lib.wrappers[i], NodeUnsubscribe(h, sub);
    if sub in n.subscriptions {
      OpEnds(urls, lib, c, i, ptr,
             n.(subscriptions := n.subscriptions - {sub}, listeners := n.listeners - {n.subscriptions[sub]},
                trace := n.trace + [NetRemoveListener(n.subscriptions[sub])]), [], 0);
    } else {
      OpEnds(urls, lib, c, i, ptr, n, [Failure(SUBSCRIPTION_NOT_FOUND, None)], 0);
    }
  }

  /** Setting proxies: direction 0 publishes, 1 subscribes, others are refused
      before the peers are looked at; connection count 0 means no limit. */
  lemma SetProxiesLaw(urls: Urls, lib: Library, c: Call, i: nat, ptr: Ptr)
    requires c.NodeSetProxies? && Admitted(lib, c, i)
    ensures var n, after := lib.wrappers[i], Step(urls, lib, c, ptr);
      var count := if c.connections == 0 then None else Some(c.connections);
      && (c.direction !in {0, 1} ==> Refused(lib, i, NODE_OPERATION_FAILED, ptr, after))
      && (c.direction in {0, 1} ==> forall k: nat :: IsFirstBad(urls, c.proxies, k) ==>
            Ends(lib, i, n, [FaultOf(c.proxies[k], INVALID_PROXY_URL)], 0, ptr, after))
      && (c.direction == 0 && AllGood(urls, c.proxies) ==>
            Ends(lib, i, n.(trace := n.trace + [NetSetProxies(Part(c), Described(c.proxies), false, count)]),
                 ErrorUnless(c.ok), 0, ptr, after))
      && (c.direction == 1 && AllGood(urls, c.proxies) ==>
            Ends(lib, i, n.(trace := n.trace + [NetSetProxies(Part(c), Described(c.proxies), true, count)]),
                 ErrorUnless(c.ok), 0, ptr, after))
  {
    hide Step, Ends, ParsePeers, StreamPart.Parse, StreamPart.Spell, NodeOp, FaultOf, IsGoodPeer;
    var n := lib.wrappers[i];
    AdmittedOp(urls, lib, c, i);
    PeersDecide(urls, c.proxies, INVALID_PROXY_URL);
    if c.direction !in {0, 1} {
      OpEnds(urls, lib, c, i, ptr, n, [Failure(NODE_OPERATION_FAILED, None)], 0);
    } else {
      forall k: nat | IsFirstBad(urls, c.proxies, k)
        ensures Ends(lib, i, n, [FaultOf(c.proxies[k], INVALID_PROXY_URL)], 0, ptr, Step(urls, lib, c, ptr))
      {
        OpEnds(urls, lib, c, i, ptr, n, [FaultOf(c.proxies[k], INVALID_PROXY_URL)], 0);
      }
      if AllGood(urls, c.proxies) {
        var count := if c.connections == 0 then None else Some(c.connections);
        OpEnds(urls, lib, c, i, ptr,
               n.(trace := n.trace + [NetSetProxies(Part(c), Described(c.proxies), c.direction == 1, count)]), ErrorUnless(c.ok), 0);
      }
    }
  }

  // ----- creation and deletion ---------------------------------------------

  /** The call published one result with the given errors and changed nothing else. */
  ghost predicate OnlyResult(lib: Library, errors: seq<Failure>, successful: seq<Peer>, value: nat, ptr: Ptr, after: (Library, Response)) {
    var api := Current(lib);
    && after.0 == lib.(api := Some(api.(results := api.results[ptr := Result(errors, successful)])))
    && after.1 == Replied(value, ptr)
  }

  /** Calls on a handle that leads nowhere. */
  lemma UnknownHandleLaw(urls: Urls, lib: Library, c: Call, ptr: Ptr)
    requires c.NodeStart? || c.NodeStop? || c.NodeUnsubscribe? || NeedsRunning(c)
    requires c.node !in Current(lib).nodes
    ensures OnlyResult(lib, [Failure(NODE_NOT_FOUND, None)], [], 0, ptr, Step(urls, lib, c, ptr))
  {
    hide NodeOp;
  }

  /** Creating a node. A bad address comes before a bad entry point. Otherwise,
      unless the network node cannot be made, there is one more wrapper, new and
      without subscriptions, which the returned handle leads to; it is isolated
      exactly if the caller gave neither entry points nor a websocket port; and
      the wrapper that was behind the handle is destroyed. */
  lemma NewLaw(urls: Urls, lib: Library, c: Call, ptr: Ptr)
    requires LibInv(lib) && c.NodeNew?
    ensures var after := Step(urls, lib, c, ptr);
      && (!StreamPart.IsEthereumAddress(c.ownAddress) ==>
            OnlyResult(lib, [Failure(INVALID_ETHEREUM_ADDRESS, None)], [], 0, ptr, after))
      && (StreamPart.IsEthereumAddress(c.ownAddress) ==> forall k: nat :: IsFirstBad(urls, c.entryPoints, k) ==>
            OnlyResult(lib, [FaultOf(c.entryPoints[k], INVALID_ENTRY_POINT_URL)], [], 0, ptr, after))
      && (StreamPart.IsEthereumAddress(c.ownAddress) && AllGood(urls, c.entryPoints) && !c.built ==>
            after == (Initialized(lib), Escaped))
      && (StreamPart.IsEthereumAddress(c.ownAddress) && AllGood(urls, c.entryPoints) && c.built ==>
            Creates(lib, c, ptr, after))
  {
    hide LibInv, ParsePeers, StreamPart.IsEthereumAddress, FaultOf, IsGoodPeer, Creates;
    PeersDecide(urls, c.entryPoints, INVALID_ENTRY_POINT_URL);
    var described := Described(c.entryPoints);
    if StreamPart.IsEthereumAddress(c.ownAddress) && AllGood(urls, c.entryPoints) && c.built {
      NewCreates(urls, lib, c, ptr);
    }
  }

  ghost predicate Creates(lib: Library, c: Call, ptr: Ptr, after: (Library, Response))
    requires c.NodeNew?
  {
    var api, i := Current(lib), |lib.wrappers|;
    && after.1 == Replied(c.handle, ptr)
    && after.0.nextToken == lib.nextToken && |after.0.wrappers| == i + 1
    && after.0.api == Some(Api(api.nodes[c.handle := i], api.clients, api.results[ptr := Result([], [])]))
    && after.0.wrappers[i]
       == Node(c.handle, c.entryPoints == [] && c.websocketPort == 0, false, false, false, 1, map[], map[], [])
    && forall k: nat :: k < i ==>
         if LeadsTo(lib, c.handle, k) then Ended(lib.wrappers[k], after.0.wrappers[k]) else after.0.wrappers[k] == lib.wrappers[k]
  }

  /** `m` is what is left of `n` after its destructor. */
  ghost predicate Ended(n: Node, m: Node) {
    m == n.(destroyed := true, listeners := map[], stopped := n.started || n.stopped,
            trace := n.trace + (if n.started && !n.stopped then [NetStop] else []))
  }

  lemma DestroyEnds(n: Node, out: StopOutcome)
    ensures Ended(n, Destroy(n, out))
  {
    assert n.trace + [] == n.trace;
  }

  lemma NewCreates(urls: Urls, lib: Library, c: Call, ptr: Ptr)
    requires LibInv(lib) && c.NodeNew? && c.built && StreamPart.IsEthereumAddress(c.ownAddress)
    requires ParsePeers(urls, c.entryPoints, INVALID_ENTRY_POINT_URL) == Parsed(Described(c.entryPoints))
    ensures Creates(lib, c, ptr, Step(urls, lib, c, ptr))
  {
    hide NodeInv, ParsePeers, StreamPart.IsEthereumAddress, Destroy, Ended;
    var nodes := Current(lib).nodes;
    forall out, n { DestroyEnds(n, out); }
    assert |Described(c.entryPoints)| == |c.entryPoints|;
  }

  /** Deleting a node: the handle leads nowhere any more, and its wrapper, if
      there is one, is destroyed; nothing else changes. */
  lemma DeleteLaw(urls: Urls, lib: Library, h: Handle, out: StopOutcome, ptr: Ptr)
    requires LibInv(lib)
    ensures var after, api := Step(urls, lib, NodeDelete(h, out), ptr), Current(lib);
      && after.1 == Replied(0, ptr) && after.0.nextToken == lib.nextToken && |after.0.wrappers| == |lib.wrappers|
      && after.0.api == Some(Api(api.nodes - {h}, api.clients, api.results[ptr := Result([], [])]))
      && forall k: nat :: k < |lib.wrappers| ==>
           if LeadsTo(lib, h, k) then Ended(lib.wrappers[k], after.0.wrappers[k]) else after.0.wrappers[k] == lib.wrappers[k]
  {
    hide NodeInv, Destroy, Ended;
    forall n { DestroyEnds(n, out); }
    if h !in Current(lib).nodes { assert Current(lib).nodes - {h} == Current(lib).nodes; }
  }

  // ----- proxy clients -----------------------------------------------------

  /** One error with the given code for each peer, in order. */
  ghost predicate OneEach(errors: seq<Failure>, code: Code, peers: seq<Peer>) {
    |errors| == |peers| && forall j :: 0 <= j < |errors| ==> errors[j] == Failure(code, Some(peers[j]))
  }

  /** Connecting: no peers, an unknown client and a bad peer are refused in this
      order. Otherwise the peers that failed are the errors, those that were
      reached the successes, and their number is returned. */
  lemma ConnectLaw(urls: Urls, lib: Library, c: Call, ptr: Ptr)
    requires c.ClientConnect?
    ensures var after, known := Step(urls, lib, c, ptr), c.client in Current(lib).clients;
      && (c.proxies == [] ==> OnlyResult(lib, [Failure(NO_PROXIES_DEFINED, None)], [], 0, ptr, after))
      && (c.proxies != [] && !known ==> OnlyResult(lib, [Failure(PROXY_CLIENT_NOT_FOUND, None)], [], 0, ptr, after))
      && (known ==> forall k: nat :: IsFirstBad(urls, c.proxies, k) ==>
            OnlyResult(lib, [FaultOf(c.proxies[k], INVALID_PROXY_URL)], [], 0, ptr, after))
      && (c.proxies != [] && known && AllGood(urls, c.proxies) && !c.ok ==> after == (Initialized(lib), Escaped))
      && (c.proxies != [] && known && AllGood(urls, c.proxies) && c.ok ==>
            exists errors :: OneEach(errors, PROXY_CONNECTION_FAILED, c.failed)
              && OnlyResult(lib, errors, c.reached, |c.reached|, ptr, after))
  {
    hide ParsePeers, FaultOf, IsGoodPeer;
    PeersDecide(urls, c.proxies, INVALID_PROXY_URL);
    assert OneEach(Failures(PROXY_CONNECTION_FAILED, c.failed), PROXY_CONNECTION_FAILED, c.failed);
  }

  /** Publishing through proxies: the client's number advances; failed peers are
      errors and reached ones successes; if sending throws, the failures so far
      and one error without a peer are all there is. */
  lemma ClientPublishLaw(urls: Urls, lib: Library, c: Call, ptr: Ptr)
    requires c.ClientPublish?
    ensures var after, api := Step(urls, lib, c, ptr), Current(lib);
      if c.client !in api.clients then OnlyResult(lib, [Failure(PROXY_CLIENT_NOT_FOUND, None)], [], 0, ptr, after)
      else
        var drawn := lib.(api := Some(api.(clients := api.clients[c.client := After(api.clients[c.client])])));
        exists errors :: OneEach(errors, PROXY_BROADCAST_FAILED, c.sent.failed)
          && (if c.sent.Sent? then OnlyResult(drawn, errors, c.sent.reached, |c.sent.reached|, ptr, after)
              else OnlyResult(drawn, errors + [Failure(PROXY_BROADCAST_FAILED, None)], [], 0, ptr, after))
  {
    assert OneEach(Failures(PROXY_BROADCAST_FAILED, c.sent.failed), PROXY_BROADCAST_FAILED, c.sent.failed);
  }

  /** Creating and deleting a client. */
  lemma ClientLifeLaw(urls: Urls, lib: Library, c: Call, ptr: Ptr)
    requires c.ClientNew? || c.ClientDelete?
    ensures var after, api := Step(urls, lib, c, ptr), Current(lib);
      && (c.ClientDelete? ==>
            OnlyResult(lib.(api := Some(api.(clients := api.clients - {c.client}))), [], [], 0, ptr, after))
      && (c.ClientNew? && !StreamPart.IsEthereumAddress(c.ownAddress) ==>
            OnlyResult(lib, [Failure(INVALID_ETHEREUM_ADDRESS, None)], [], 0, ptr, after))
      && (c.ClientNew? && StreamPart.IsEthereumAddress(c.ownAddress) && StreamPart.Parse(c.streamPart).InvalidArgument? ==>
            OnlyResult(lib, [Failure(INVALID_STREAM_PART_ID, None)], [], 0, ptr, after))
      && (c.ClientNew? && StreamPart.IsEthereumAddress(c.ownAddress) && StreamPart.Parse(c.streamPart).UncaughtError? ==>
            after == (Initialized(lib), Escaped))
      && (c.ClientNew? && StreamPart.IsEthereumAddress(c.ownAddress) && StreamPart.Parse(c.streamPart).Ok? ==>
            OnlyResult(lib.(api := Some(api.(clients := api.clients[c.handle := 1]))), [], [], c.handle, ptr, after))
  {
    hide StreamPart.IsEthereumAddress, StreamPart.Parse;
  }
}
