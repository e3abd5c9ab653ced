/** Where the network calls of a run come from: every entry of every node's
    trace goes back to one call of the C API, with that call's arguments; the
    numbers that broadcasts carry; and how published messages are delivered. */
module NodeTraces {
  import opened Options
  import opened PeerList
  import opened NodeSpec
  import opened NodeLife
  import opened NodeRuns
  import opened NodeLaws
  import opened NodeDelivery
  import StreamPart

  // ----- one call ----------------------------------------------------------

  /** The call is a guarded one and gets as far as its own work. */
  predicate Proceeds(n: Node, c: Call) {
    NeedsRunning(c) && FlagPhase(n) == Running && (c.NodeSubscribe? ==> c.callback) && StreamPart.Parse(c.streamPart).Ok?
  }

  /** The call draws a sequence number on a node in state `n`. */
  predicate Draws(n: Node, c: Call) { c.NodePublish? && Proceeds(n, c) }

  /** Call `c` on a node in state `n` may make `e` its `pos`-th network call. */
  predicate Explains(n: Node, c: Call, pos: nat, e: NetCall) {
    match e
    case NetStart(join) => c.NodeStart? && FlagPhase(n) == New && pos == 0 && join == !n.isolated
    case NetJoinDht => c.NodeStart? && FlagPhase(n) == New && pos == 1 && n.isolated
    case NetStop => (c.NodeStart? && FlagPhase(n) == New) || (FlagPhase(n) == Running && !NeedsRunning(c))
    case NetSetEntryPoints(part, ds) =>
      c.NodeJoin? && Proceeds(n, c) && pos == 0 && part == Part(c) && c.entryPoints != [] && ds == Described(c.entryPoints)
    case NetJoin(part) => (c.NodeJoin? || c.NodeSubscribe?) && Proceeds(n, c) && part == Part(c)
    case NetLeave(part) => c.NodeLeave? && Proceeds(n, c) && pos == 0 && part == Part(c)
    case NetBroadcast(m, number) =>
      Draws(n, c) && c.built && pos == 0 && m == MessageOf(c) && number == n.sequenceNumber
    case NetNeighbors(part) => c.NodeNeighbors? && Proceeds(n, c) && pos == 0 && part == Part(c)
    case NetSetProxies(part, ds, subscribing, count) =>
      && c.NodeSetProxies? && Proceeds(n, c) && pos == 0 && part == Part(c) && ds == Described(c.proxies)
      && c.direction == (if subscribing then 1 else 0) && (if c.connections == 0 then count == None else count == Some(c.connections))
    case NetAddListener(token) => c.NodeSubscribe? && Proceeds(n, c) && pos == 1
    case NetRemoveListener(token) =>
      c.NodeUnsubscribe? && pos == 0 && c.subscription in n.subscriptions && n.subscriptions[c.subscription] == token
  }

  /** `m` is `n` after call `c`: what was added to the trace is explained by the
      call, and a number is drawn by publishing only. */
  ghost predicate Explained(n: Node, c: Call, m: Node) {
    && n.trace <= m.trace && m.isolated == n.isolated
    && (forall j: nat :: |n.trace| <= j < |m.trace| ==> Explains(n, c, j - |n.trace|, m.trace[j]))
    && m.sequenceNumber == (if Draws(n, c) then After(n.sequenceNumber) else n.sequenceNumber)
  }

  lemma Unmoved(n: Node, c: Call)
    requires !Draws(n, c)
    ensures Explained(n, c, n)
  {
  }

  /** The network calls that an operation adds, one or two of them. */
  lemma AddsOne(n: Node, c: Call, m: Node, e: NetCall)
    requires m.isolated == n.isolated && m.trace == n.trace + [e] && Explains(n, c, 0, e)
    requires m.sequenceNumber == (if Draws(n, c) then After(n.sequenceNumber) else n.sequenceNumber)
    ensures Explained(n, c, m)
  {
  }

  lemma AddsTwo(n: Node, c: Call, m: Node, e: NetCall, f: NetCall)
    requires m.isolated == n.isolated && m.trace == n.trace + [e, f] && Explains(n, c, 0, e) && Explains(n, c, 1, f)
    requires m.sequenceNumber == n.sequenceNumber && !Draws(n, c)
    ensures Explained(n, c, m)
  {
  }

  lemma PeersParsed(urls: Urls, peers: seq<Peer>, badUrl: Code)
    ensures var p := ParsePeers(urls, peers, badUrl); p.Parsed? ==> p.descriptors == Described(peers)
  {
    hide ParsePeers, IsGoodPeer;
    ParsePeersOutcome(urls, peers, badUrl);
  }

  lemma JoinExplained(urls: Urls, n: Node, token: Token, c: Call)
    requires c.NodeJoin? && Proceeds(n, c)
    ensures Explained(n, c, JoinOp(urls, n, token, Part(c), c).node)
  {
    hide ParsePeers, StreamPart.Parse, StreamPart.Spell, Explained;
    PeersParsed(urls, c.entryPoints, INVALID_ENTRY_POINT_URL);
    var p, m := ParsePeers(urls, c.entryPoints, INVALID_ENTRY_POINT_URL), JoinOp(urls, n, token, Part(c), c).node;
    if p.Rejected? {
      Unmoved(n, c);
    } else if c.entryPoints == [] {
      AddsOne(n, c, m, NetJoin(Part(c)));
    } else if c.entryOk {
      AddsTwo(n, c, m, NetSetEntryPoints(Part(c), p.descriptors), NetJoin(Part(c)));
    } else {
      AddsOne(n, c, m, NetSetEntryPoints(Part(c), p.descriptors));
    }
  }

  lemma PublishExplained(n: Node, token: Token, c: Call)
    requires Draws(n, c)
    ensures Explained(n, c, PublishOp(n, token, Part(c), c).node)
  {
    hide StreamPart.MessageFor, StreamPart.Parse, StreamPart.Spell, Explained;
    SpelledMessage(c);
    var m := PublishOp(n, token, Part(c), c).node;
    if c.built {
      AddsOne(n, c, m, NetBroadcast(MessageOf(c), n.sequenceNumber));
    } else {
      DrawsOnly(n, c, m);
    }
  }

  lemma DrawsOnly(n: Node, c: Call, m: Node)
    requires Draws(n, c) && m == n.(sequenceNumber := After(n.sequenceNumber))
    ensures Explained(n, c, m)
  {
  }

  lemma SubscribeExplained(n: Node, token: Token, c: Call)
    requires c.NodeSubscribe? && Proceeds(n, c)
    ensures Explained(n, c, SubscribeOp(n, token, Part(c), c).node)
  {
    hide StreamPart.ListenerFor, StreamPart.Parse, StreamPart.Spell, Explained;
    SpelledListener(c);
    var m := SubscribeOp(n, token, Part(c), c).node;
    if c.ok {
      assert n.trace + [NetJoin(Part(c))] + [NetAddListener(token + c.drawn)]
          == n.trace + [NetJoin(Part(c)), NetAddListener(token + c.drawn)];
      AddsTwo(n, c, m, NetJoin(Part(c)), NetAddListener(token + c.drawn));
    } else {
      AddsOne(n, c, m, NetJoin(Part(c)));
    }
  }

  lemma SetProxiesExplained(urls: Urls, n: Node, token: Token, c: Call)
    requires c.NodeSetProxies? && Proceeds(n, c)
    ensures Explained(n, c, SetProxiesOp(urls, n, token, Part(c), c).node)
  {
    hide ParsePeers, StreamPart.Parse, StreamPart.Spell, Explained;
    PeersParsed(urls, c.proxies, INVALID_PROXY_URL);
    var p, m := ParsePeers(urls, c.proxies, INVALID_PROXY_URL), SetProxiesOp(urls, n, token, Part(c), c).node;
    if m == n {
      Unmoved(n, c);
    } else {
      AddsOne(n, c, m, NetSetProxies(Part(c), p.descriptors, c.direction == 1, if c.connections == 0 then None else Some(c.connections)));
    }
  }

  lemma PartExplained(urls: Urls, n: Node, token: Token, c: Call)
    requires Proceeds(n, c)
    ensures Explained(n, c, PartOp(urls, n, token, Part(c), c).node)
  {
    hide Explained, JoinOp, PublishOp, SubscribeOp, SetProxiesOp, StreamPart.Parse, StreamPart.Spell;
    var m := PartOp(urls, n, token, Part(c), c).node;
    if c.NodeJoin? {
      JoinExplained(urls, n, token, c);
    } else if c.NodeLeave? {
      AddsOne(n, c, m, NetLeave(Part(c)));
    } else if c.NodePublish? {
      PublishExplained(n, token, c);
    } else if c.NodeSubscribe? {
      SubscribeExplained(n, token, c);
    } else if c.NodeNeighbors? {
      AddsOne(n, c, m, NetNeighbors(Part(c)));
    } else {
      SetProxiesExplained(urls, n, token, c);
    }
  }

  lemma StartExplained(n: Node, c: Call, token: Token)
    requires c.NodeStart? && NodeInv(n, token) && FlagPhase(n) == New
    ensures Explained(n, c, StartNode(n, c.start))
  {
    hide TracePhase;
  }

  lemma OpExplained(urls: Urls, n: Node, token: Token, c: Call)
    requires NodeInv(n, token) && IsNodeCall(c)
    ensures Explained(n, c, NodeOp(urls, n, token, c).node)
  {
    hide Explained, Explains, PartOp, StartNode, TracePhase, StreamPart.Parse, StreamPart.Spell;
    if Proceeds(n, c) {
      CanonicalIsPart(c);
      PartExplained(urls, n, token, c);
    } else if c.NodeStart? && FlagPhase(n) == New {
      StartExplained(n, c, token);
    } else if c.NodeStop? && FlagPhase(n) == Running {
      StopExplains(n, c);
      AddsOne(n, c, StopNode(n, c.stop), NetStop);
    } else if c.NodeUnsubscribe? && c.subscription in n.subscriptions {
      RemoveExplains(n, c);
      AddsOne(n, c, RemoveSubscription(n, c.subscription), NetRemoveListener(n.subscriptions[c.subscription]));
    } else {
      Unmoved(n, c);
      StaysPut(urls, n, token, c);
    }
  }

  lemma StopExplains(n: Node, c: Call)
    requires FlagPhase(n) == Running && !NeedsRunning(c)
    ensures Explains(n, c, 0, NetStop)
  {
  }

  lemma RemoveExplains(n: Node, c: Call)
    requires c.NodeUnsubscribe? && c.subscription in n.subscriptions
    ensures Explains(n, c, 0, NetRemoveListener(n.subscriptions[c.subscription]))
  {
  }

  lemma CanonicalIsPart(c: Call)
    requires NeedsRunning(c) && StreamPart.Parse(c.streamPart).Ok?
    ensures StreamPart.Canonical(c.streamPart) == StreamPart.Ok(Part(c))
  {
  }

  lemma StaysPut(urls: Urls, n: Node, token: Token, c: Call)
    requires NodeInv(n, token) && IsNodeCall(c) && !Proceeds(n, c)
    requires !(c.NodeStart? && FlagPhase(n) == New) && !(c.NodeStop? && FlagPhase(n) == Running)
    requires !(c.NodeUnsubscribe? && c.subscription in n.subscriptions)
    ensures NodeOp(urls, n, token, c).node == n
  {
    hide TracePhase, PartOp, StreamPart.Parse;
  }

  // ----- one step ----------------------------------------------------------

  /** What a step does to a wrapper that it is not directed at: nothing, or it
      destroys it. */
  ghost predicate Bystander(n: Node, c: Call, m: Node) {
    m == n || ((c.NodeNew? || c.NodeDelete? || c.CleanupLibrary?) && Ended(n, m))
  }

  ghost predicate StepExplained(lib: Library, c: Call, lib': Library, i: nat) {
    && i < |lib.wrappers| && i < |lib'.wrappers|
    && (if Targets(lib, c, i) then Explained(lib.wrappers[i], c, lib'.wrappers[i])
        else Bystander(lib.wrappers[i], c, lib'.wrappers[i]))
  }

  lemma ActExplains(urls: Urls, lib: Library, c: Call, i: nat)
    requires LibInv(lib) && lib.api.Some? && MakesResult(c) && i < |lib.wrappers|
    ensures StepExplained(lib, c, Act(urls, lib, c).0, i)
  {
    hide NodeInv, NodeOp, ClientOp, ParsePeers, StreamPart.IsEthereumAddress, Destroy, Explained, Ended;
    if Targets(lib, c, i) {
      OpExplained(urls, lib.wrappers[i], lib.nextToken, c);
    } else {
      forall out { DestroyEnds(lib.wrappers[i], out); }
    }
  }

  lemma StepExplains(urls: Urls, lib: Library, c: Call, ptr: Ptr, i: nat)
    requires LibInv(lib) && i < |lib.wrappers|
    ensures StepExplained(lib, c, Step(urls, lib, c, ptr).0, i)
  {
    hide NodeInv, Act, Destroy, Explained, Ended, LibInv;
    if MakesResult(c) {
      InitializedKeeps(lib);
      ActExplains(urls, Initialized(lib), c, i);
      assert Targets(Initialized(lib), c, i) <==> Targets(lib, c, i);
    } else if c.CleanupLibrary? {
      DestroyEnds(lib.wrappers[i], c.stops(lib.wrappers[i].handle));
    }
  }

  // ----- every network call of a run ---------------------------------------

  /** Entry `j` of wrapper `i`'s trace is `e`, and the k-th call has made it. */
  ghost predicate CausedBy(urls: Urls, run: Run, k: nat, i: nat, j: nat, e: NetCall) {
    && k < |run|
    && var lib, c := Exec(urls, run[..k]), run[k].0;
       && i < |lib.wrappers| && |lib.wrappers[i].trace| <= j
       && (|| (Targets(lib, c, i) && Explains(lib.wrappers[i], c, j - |lib.wrappers[i].trace|, e))
           || ((c.NodeNew? || c.NodeDelete? || c.CleanupLibrary?) && e == NetStop && FlagPhase(lib.wrappers[i]) == Running
               && j == |lib.wrappers[i].trace|))
  }

  lemma CausedPrefix(urls: Urls, run: Run, k: nat, i: nat, j: nat, e: NetCall)
    requires run != [] && CausedBy(urls, run[..|run| - 1], k, i, j, e)
    ensures CausedBy(urls, run, k, i, j, e)
  {
    hide Exec, Explains;
    assert run[..|run| - 1][..k] == run[..k];
  }

  lemma LastCause(urls: Urls, run: Run, i: nat, j: nat)
    requires run != [] && i < |Exec(urls, run[..|run| - 1]).wrappers| && i < |Exec(urls, run).wrappers|
    requires |Exec(urls, run[..|run| - 1]).wrappers[i].trace| <= j < |Exec(urls, run).wrappers[i].trace|
    ensures CausedBy(urls, run, |run| - 1, i, j, Exec(urls, run).wrappers[i].trace[j])
  {
    hide Step, Explains, LibInv;
    var last := |run| - 1;
    RunInv(urls, run[..last]);
    StepExplains(urls, Exec(urls, run[..last]), run[last].0, run[last].1, i);
  }

  /** A new wrapper has an empty trace. */
  lemma NewTrace(urls: Urls, lib: Library, c: Call, ptr: Ptr, i: nat)
    requires LibInv(lib) && |lib.wrappers| <= i < |Step(urls, lib, c, ptr).0.wrappers|
    ensures c.NodeNew? && StreamPart.IsEthereumAddress(c.ownAddress) && AllGood(urls, c.entryPoints) && c.built
    ensures i == |lib.wrappers| && Creates(lib, c, ptr, Step(urls, lib, c, ptr))
  {
    OnlyNewGrows(urls, lib, c, ptr);
    NewLaw(urls, lib, c, ptr);
    hide Step, LibInv, Creates, StreamPart.IsEthereumAddress;
    if !AllGood(urls, c.entryPoints) { SomeFirstBad(urls, c.entryPoints, |c.entryPoints|); }
    if Creates(lib, c, ptr, Step(urls, lib, c, ptr)) { CreatesOne(lib, c, ptr, Step(urls, lib, c, ptr)); }
  }

  lemma CreatesOne(lib: Library, c: Call, ptr: Ptr, after: (Library, Response))
    requires c.NodeNew? && Creates(lib, c, ptr, after)
    ensures |after.0.wrappers| == |lib.wrappers| + 1
  {
  }

  lemma OnlyNewGrows(urls: Urls, lib: Library, c: Call, ptr: Ptr)
    ensures !c.NodeNew? ==> |Step(urls, lib, c, ptr).0.wrappers| == |lib.wrappers|
  {
    hide NodeOp, ClientOp, Destroy;
  }

  lemma {:induction false} SomeFirstBad(urls: Urls, peers: seq<Peer>, n: nat)
    requires n <= |peers| && exists i :: 0 <= i < n && !IsGoodPeer(urls, peers[i])
    ensures exists k: nat :: IsFirstBad(urls, peers, k)
  {
    hide IsGoodPeer;
    if exists i :: 0 <= i < n - 1 && !IsGoodPeer(urls, peers[i]) {
      SomeFirstBad(urls, peers, n - 1);
    } else {
      assert IsFirstBad(urls, peers, n - 1);
    }
  }

  /** In every run, every network call on every node goes back to one call of
      the C API, which explains it. */
  lemma {:induction false} EveryNetworkCall(urls: Urls, run: Run, i: nat, j: nat) returns (k: nat)
    requires i < |Exec(urls, run).wrappers| && j < |Exec(urls, run).wrappers[i].trace|
    ensures CausedBy(urls, run, k, i, j, Exec(urls, run).wrappers[i].trace[j])
  {
    hide Step, LibInv, CausedBy;
    var before, last := run[..|run| - 1], |run| - 1;
    RunInv(urls, before);
    if i >= |Exec(urls, before).wrappers| {
      NewTrace(urls, Exec(urls, before), run[last].0, run[last].1, i);
    }
    History(urls, run, last);
    if j >= |Exec(urls, before).wrappers[i].trace| {
      LastCause(urls, run, i, j);
      k := last;
    } else {
      k := EveryNetworkCall(urls, before, i, j);
      CausedPrefix(urls, run, k, i, j, Exec(urls, run).wrappers[i].trace[j]);
    }
  }

  // ----- how nodes start ---------------------------------------------------

  /** The k-th call made wrapper `i`. */
  ghost predicate MadeBy(urls: Urls, run: Run, k: nat, i: nat) {
    k < |run| && run[k].0.NodeNew? && i == |Exec(urls, run[..k]).wrappers| && i < |Exec(urls, run[..k + 1]).wrappers|
  }

  lemma {:induction false} Origin(urls: Urls, run: Run, i: nat) returns (k: nat)
    requires i < |Exec(urls, run).wrappers|
    ensures MadeBy(urls, run, k, i)
    ensures Exec(urls, run).wrappers[i].isolated <==> run[k].0.entryPoints == [] && run[k].0.websocketPort == 0
    ensures Exec(urls, run).wrappers[i].handle == run[k].0.handle
  {
    hide Step, LibInv, Creates;
    var before, last := run[..|run| - 1], |run| - 1;
    RunInv(urls, before);
    assert run[..last + 1] == run;
    if i >= |Exec(urls, before).wrappers| {
      NewTrace(urls, Exec(urls, before), run[last].0, run[last].1, i);
      MadeFields(Exec(urls, before), run[last].0, run[last].1, Step(urls, Exec(urls, before), run[last].0, run[last].1));
      k := last;
    } else {
      k := Origin(urls, before, i);
      History(urls, run, last);
      assert before[..k] == run[..k] && before[..k + 1] == run[..k + 1] && before[k] == run[k];
    }
  }

  lemma MadeFields(lib: Library, c: Call, ptr: Ptr, after: (Library, Response))
    requires c.NodeNew? && Creates(lib, c, ptr, after)
    ensures var i := |lib.wrappers|;
      && i < |after.0.wrappers| && after.0.wrappers[i].handle == c.handle
      && (after.0.wrappers[i].isolated <==> c.entryPoints == [] && c.websocketPort == 0)
  {
  }

  /** In every run, a node that was started joined the network as it started if
      and only if its creation call gave entry points or a websocket port; only
      otherwise, and only right after, may it have joined its own DHT. */
  lemma StartsAsConfigured(urls: Urls, run: Run, i: nat) returns (k: nat)
    requires i < |Exec(urls, run).wrappers|
    ensures MadeBy(urls, run, k, i)
    ensures var t := Exec(urls, run).wrappers[i].trace;
      var networked := run[k].0.entryPoints != [] || run[k].0.websocketPort != 0;
      && (t != [] ==> t[0] == NetStart(networked))
      && forall j :: 0 <= j < |t| && t[j].NetJoinDht? ==> j == 1 && !networked
  {
    hide Exec, MadeBy, CausedBy;
    k := Origin(urls, run, i);
    var n := Exec(urls, run).wrappers[i];
    NetworkProtocol(urls, run, i);
    if n.trace != [] {
      var o := EveryNetworkCall(urls, run, i, 0);
      StartCause(urls, run, o, i, 0, n.trace[0]);
    }
    forall j: nat | j < |n.trace| && n.trace[j].NetJoinDht?
      ensures j == 1 && n.isolated
    {
      var o := EveryNetworkCall(urls, run, i, j);
      StartCause(urls, run, o, i, j, n.trace[j]);
    }
  }

  lemma StartCause(urls: Urls, run: Run, k: nat, i: nat, j: nat, e: NetCall)
    requires CausedBy(urls, run, k, i, j, e) && i < |Exec(urls, run).wrappers|
    ensures e.NetStart? ==> e.join == !Exec(urls, run).wrappers[i].isolated
    ensures e.NetJoinDht? ==> j == 1 && Exec(urls, run).wrappers[i].isolated
  {
    hide Exec, TracePhase;
    RunInv(urls, run[..k]);
    History(urls, run, k);
    var lib := Exec(urls, run[..k]);
    assert NodeInv(lib.wrappers[i], lib.nextToken);
    PhaseIsOrder(lib.wrappers[i].trace);
  }

  // ----- sequence numbers --------------------------------------------------

  /** The calls of the run that drew a number on wrapper `i`. */
  ghost function DrawCount(urls: Urls, run: Run, i: nat): nat {
    if run == [] then 0
    else
      var lib, c := Exec(urls, run[..|run| - 1]), run[|run| - 1].0;
      DrawCount(urls, run[..|run| - 1], i) + if Targets(lib, c, i) && Draws(lib.wrappers[i], c) then 1 else 0
  }

  /** The d-th number of an int32_t counter that starts at 1 and wraps around. */
  function Wrapped(d: nat): int { (d + 1 + 0x8000_0000) % 0x1_0000_0000 - 0x8000_0000 }

  lemma NextWrapped(d: nat)
    ensures After(Wrapped(d)) == Wrapped(d + 1)
  {
  }

  lemma {:induction false} NoDrawsBefore(urls: Urls, run: Run, i: nat)
    requires i >= |Exec(urls, run).wrappers|
    ensures DrawCount(urls, run, i) == 0
  {
    hide Step, LibInv;
    if run != [] {
      var before, last := run[..|run| - 1], |run| - 1;
      RunInv(urls, before);
      StepKeeps(urls, Exec(urls, before), run[last].0, run[last].1);
      NoDrawsBefore(urls, before, i);
    }
  }

  lemma StepDraws(urls: Urls, lib: Library, c: Call, ptr: Ptr, i: nat)
    requires LibInv(lib) && i < |Step(urls, lib, c, ptr).0.wrappers|
    ensures var m := Step(urls, lib, c, ptr).0.wrappers[i];
      && (i >= |lib.wrappers| ==> m.sequenceNumber == 1)
      && (i < |lib.wrappers| ==>
            var drawn := Targets(lib, c, i) && Draws(lib.wrappers[i], c);
            m.sequenceNumber == (if drawn then After(lib.wrappers[i].sequenceNumber) else lib.wrappers[i].sequenceNumber))
  {
    hide Step, LibInv, Draws, Targets;
    if i >= |lib.wrappers| {
      NewTrace(urls, lib, c, ptr, i);
    } else {
      StepExplains(urls, lib, c, ptr, i);
    }
  }

  /** In every run, the next number of a node says how many were drawn. */
  lemma {:induction false} NumbersAreCounted(urls: Urls, run: Run, i: nat)
    requires i < |Exec(urls, run).wrappers|
    ensures Exec(urls, run).wrappers[i].sequenceNumber == Wrapped(DrawCount(urls, run, i))
  {
    hide Step, LibInv, Draws;
    var before, last := run[..|run| - 1], |run| - 1;
    RunInv(urls, before);
    StepDraws(urls, Exec(urls, before), run[last].0, run[last].1, i);
    if i < |Exec(urls, before).wrappers| {
      NumbersAreCounted(urls, before, i);
      NextWrapped(DrawCount(urls, before, i));
    } else {
      NoDrawsBefore(urls, before, i);
    }
  }

  // ----- broadcasts --------------------------------------------------------

  /** The k-th call published on wrapper `i` and its message was built. */
  ghost predicate PublishedBy(urls: Urls, run: Run, k: nat, i: nat) {
    && k < |run|
    && var lib, c := Exec(urls, run[..k]), run[k].0; Targets(lib, c, i) && Draws(lib.wrappers[i], c) && c.built
  }

  /** Every broadcast on a node is the message of one publish call, under the
      number that this call drew. */
  lemma BroadcastOrigin(urls: Urls, run: Run, i: nat, j: nat) returns (k: nat)
    requires i < |Exec(urls, run).wrappers| && j < |Exec(urls, run).wrappers[i].trace|
    requires Exec(urls, run).wrappers[i].trace[j].NetBroadcast?
    ensures PublishedBy(urls, run, k, i) && j == |Exec(urls, run[..k]).wrappers[i].trace|
    ensures Exec(urls, run).wrappers[i].trace[j]
         == NetBroadcast(MessageOf(run[k].0), Wrapped(DrawCount(urls, run[..k], i)))
  {
    hide Exec, DrawCount;
    k := EveryNetworkCall(urls, run, i, j);
    NumbersAreCounted(urls, run[..k], i);
  }

  /** Conversely, every such call has left its broadcast in the trace. */
  lemma PublishLeavesBroadcast(urls: Urls, run: Run, k: nat, i: nat)
    requires PublishedBy(urls, run, k, i)
    ensures i < |Exec(urls, run).wrappers|
    ensures var j, t := |Exec(urls, run[..k]).wrappers[i].trace|, Exec(urls, run).wrappers[i].trace;
      j < |t| && t[j] == NetBroadcast(MessageOf(run[k].0), Wrapped(DrawCount(urls, run[..k], i)))
  {
    hide Exec, DrawCount, Step, StreamPart.Parse;
    var lib, c := Exec(urls, run[..k]), run[k].0;
    NumbersAreCounted(urls, run[..k], i);
    PublishLaw(urls, lib, c, i, run[k].1);
    ExecSnoc(urls, run, k);
    History(urls, run, k + 1);
  }

  /** The broadcasts of a node are in the order of their calls. */
  lemma BroadcastsInOrder(urls: Urls, run: Run, i: nat, k: nat, l: nat)
    requires PublishedBy(urls, run, k, i) && PublishedBy(urls, run, l, i) && k < l
    ensures |Exec(urls, run[..k]).wrappers[i].trace| < |Exec(urls, run[..l]).wrappers[i].trace|
    ensures DrawCount(urls, run[..k], i) < DrawCount(urls, run[..l], i)
  {
    hide Exec, DrawCount;
    assert run[..l][..k] == run[..k] && run[..l][k] == run[k];
    assert PublishedBy(urls, run[..l], k, i);
    PublishLeavesBroadcast(urls, run[..l], k, i);
    DrawCountGrows(urls, run[..l], k, i);
  }

  lemma {:induction false} DrawCountGrows(urls: Urls, run: Run, k: nat, i: nat)
    requires k <= |run|
    ensures DrawCount(urls, run[..k], i) <= DrawCount(urls, run, i)
    ensures k < |run| && PublishedBy(urls, run, k, i) ==> DrawCount(urls, run[..k], i) < DrawCount(urls, run, i)
    decreases |run|
  {
    hide Exec, Draws, Targets;
    if k == |run| {
      assert run[..k] == run;
    } else {
      var before := run[..|run| - 1];
      assert before[..k] == run[..k];
      DrawCountGrows(urls, before, k, i);
      if k < |before| { assert before[k] == run[k]; }
    }
  }

  // ----- delivery ----------------------------------------------------------

  /** What the k-th call of the run published on wrapper `i`, dispatched to
      wrapper `x`, fires a listener there exactly if that listener was
      subscribed, by some call l, to the same part; the callback then gets its
      node's handle, the canonical id, the bytes of call k, and the data of
      call l. */
  lemma PublishedIsDelivered(urls: Urls, run: Run, k: nat, i: nat, x: nat, t: Token) returns (l: nat)
    requires PublishedBy(urls, run, k, i)
    requires x < |Exec(urls, run).wrappers| && t in Exec(urls, run).wrappers[x].listeners
    ensures i < |Exec(urls, run).wrappers| && |Exec(urls, run[..k]).wrappers[i].trace| < |Exec(urls, run).wrappers[i].trace|
    ensures InstalledBy(urls, run, l, x, t) && run[l].0.NodeSubscribe?
    ensures var sent, n := Exec(urls, run).wrappers[i].trace[|Exec(urls, run[..k]).wrappers[i].trace|], Exec(urls, run).wrappers[x];
      var a, b := run[k].0.streamPart, run[l].0.streamPart;
      && sent.NetBroadcast? && n.listeners[t].userData == run[l].0.userData && StreamPart.Parse(b).Ok?
      && StreamPart.Dispatch(n.listeners[t].filter, sent.message)
         == if StreamPart.Parse(a) == StreamPart.Parse(b)
            then Some(StreamPart.Delivery(n.handle, StreamPart.Spell(StreamPart.Parse(b).value), run[k].0.content)) else None
  {
    hide Exec, DrawCount, StreamPart.Parse, StreamPart.Spell, StreamPart.Dispatch, StreamPart.MessageFor;
    PublishLeavesBroadcast(urls, run, k, i);
    SpelledMessage(run[k].0);
    CanonicalIsPart(run[k].0);
    l := Delivery(urls, run, x, t, run[k].0.streamPart, run[k].0.content);
    CanonicalIsPart(run[l].0);
  }
}
