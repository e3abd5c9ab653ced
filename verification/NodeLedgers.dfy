/** Accounts over every serialized run: live results, known handles, installed
    listeners, and what cleanup leaves behind. */
module NodeLedgers {
  import opened Options
  import opened Strings
  import opened NodeSpec
  import opened NodeLife
  import opened NodeRuns
  import opened PeerList
  import StreamPart

  // ----- results -----------------------------------------------------------

  function Live(lib: Library): map<Ptr, Result> { Current(lib).results }

  /** The call is guarded, and its guard lets it through. */
  predicate PassesGuard(n: Node, c: Call) {
    NeedsRunning(c) && FlagPhase(n) == Running && (c.NodeSubscribe? ==> c.callback)
  }

  ghost predicate Admitted(lib: Library, c: Call) {
    NeedsRunning(c) && exists i: nat :: LeadsTo(lib, c.node, i) && PassesGuard(lib.wrappers[i], c)
  }

  /** The exact condition under which an exception leaves a call. Either the id
      makes the parser throw something other than std::invalid_argument, and no
      earlier check turns the call away; or one of the three foreign calls
      outside any try block throws. */
  ghost predicate Escapes(urls: Urls, lib: Library, c: Call) {
    || (c.ClientNew? && StreamPart.IsEthereumAddress(c.ownAddress) && StreamPart.Parse(c.streamPart).UncaughtError?)
    || (Admitted(lib, c) && StreamPart.Parse(c.streamPart).UncaughtError?)
    || (c.NodeNeighbors? && Admitted(lib, c) && StreamPart.Parse(c.streamPart).Ok? && !c.ok)
    || (c.NodeNew? && StreamPart.IsEthereumAddress(c.ownAddress)
        && ParsePeers(urls, c.entryPoints, INVALID_ENTRY_POINT_URL).Parsed? && !c.built)
    || (c.ClientConnect? && c.proxies != [] && c.client in Current(lib).clients
        && ParsePeers(urls, c.proxies, INVALID_PROXY_URL).Parsed? && !c.ok)
  }

  lemma GuardIsPhase(n: Node)
    ensures Guard(n).None? <==> FlagPhase(n) == Running
  {
  }

  lemma PartAnswers(urls: Urls, n: Node, token: Token, part: string, c: Call)
    requires NeedsRunning(c)
    ensures var o := PartOp(urls, n, token, part, c);
      && (o.answer.Throw? <==> c.NodeNeighbors? && !c.ok)
      && (o.answer.Throw? ==> o.node == n.(trace := o.node.trace) && o.nextToken == token)
  {
    hide ParsePeers, StreamPart.MessageFor, StreamPart.ListenerFor;
  }

  lemma OpThrows(urls: Urls, n: Node, token: Token, c: Call)
    requires IsNodeCall(c)
    ensures var o := NodeOp(urls, n, token, c);
      && (o.answer.Throw? <==>
            && PassesGuard(n, c)
            && (|| StreamPart.Parse(c.streamPart).UncaughtError?
                || (c.NodeNeighbors? && StreamPart.Parse(c.streamPart).Ok? && !c.ok)))
      && (o.answer.Throw? ==> o.node == n.(trace := o.node.trace) && o.nextToken == token)
  {
    hide PartOp, StreamPart.Parse, StartNode, StopNode, RemoveSubscription;
    GuardIsPhase(n);
    if NeedsRunning(c) {
      var part := StreamPart.Canonical(c.streamPart);
      if part.Ok? { PartAnswers(urls, n, token, part.value, c); }
    }
  }

  /** Nothing differs but the record of what was asked of the network. */
  ghost predicate SameButTraces(lib: Library, lib': Library) {
    && lib' == lib.(wrappers := lib'.wrappers) && |lib'.wrappers| == |lib.wrappers|
    && forall i :: 0 <= i < |lib.wrappers| ==> lib'.wrappers[i] == lib.wrappers[i].(trace := lib'.wrappers[i].trace)
  }

  lemma AdmittedThere(lib: Library, c: Call, i: nat)
    requires IsNodeCall(c) && LeadsTo(lib, c.node, i)
    ensures Admitted(lib, c) <==> PassesGuard(lib.wrappers[i], c)
  {
  }

  /** For node calls the condition is about the wrapper alone. */
  lemma EscapesThere(urls: Urls, lib: Library, c: Call, i: nat)
    requires IsNodeCall(c) && LeadsTo(lib, c.node, i)
    ensures Escapes(urls, lib, c) <==>
      && PassesGuard(lib.wrappers[i], c)
      && (|| StreamPart.Parse(c.streamPart).UncaughtError?
          || (c.NodeNeighbors? && StreamPart.Parse(c.streamPart).Ok? && !c.ok))
  {
    hide ParsePeers, StreamPart.IsEthereumAddress, StreamPart.Parse, Admitted;
    AdmittedThere(lib, c, i);
  }

  lemma NodeActThrows(urls: Urls, lib: Library, c: Call, i: nat)
    requires lib.api.Some? && IsNodeCall(c) && LeadsTo(lib, c.node, i)
    ensures NodeAct(urls, lib, lib.api.value, c).1.Throw? <==> Escapes(urls, lib, c)
    ensures Escapes(urls, lib, c) ==> SameButTraces(lib, NodeAct(urls, lib, lib.api.value, c).0)
  {
    hide NodeOp, StreamPart.Parse, PassesGuard, Escapes;
    EscapesThere(urls, lib, c, i);
    OpThrows(urls, lib.wrappers[i], lib.nextToken, c);
  }

  lemma UnknownNeverEscapes(urls: Urls, lib: Library, c: Call)
    requires lib.api.Some? && IsNodeCall(c) && c.node !in lib.api.value.nodes
    ensures !Escapes(urls, lib, c)
  {
    hide StreamPart.Parse;
  }

  lemma UnknownIsReported(urls: Urls, lib: Library, c: Call)
    requires lib.api.Some? && IsNodeCall(c) && c.node !in lib.api.value.nodes
    ensures NodeAct(urls, lib, lib.api.value, c) == (lib, Error(NODE_NOT_FOUND))
  {
  }

  lemma ActThrows(urls: Urls, lib: Library, c: Call)
    requires lib.api.Some? && MakesResult(c) && Registered(lib)
    ensures Act(urls, lib, c).1.Throw? <==> Escapes(urls, lib, c)
    ensures Escapes(urls, lib, c) ==> SameButTraces(lib, Act(urls, lib, c).0)
  {
    hide NodeAct, ParsePeers, StreamPart.IsEthereumAddress, StreamPart.Parse, DestroyAt;
    if IsNodeCall(c) {
      hide Escapes;
      if c.node in lib.api.value.nodes {
        NodeActThrows(urls, lib, c, lib.api.value.nodes[c.node]);
      } else {
        UnknownNeverEscapes(urls, lib, c);
        UnknownIsReported(urls, lib, c);
      }
    }
  }

  lemma InitializedEscapes(urls: Urls, lib: Library, c: Call)
    requires Registered(lib)
    ensures Escapes(urls, Initialized(lib), c) <==> Escapes(urls, lib, c)
  {
    hide StreamPart.IsEthereumAddress, StreamPart.Parse, ParsePeers, PassesGuard;
    assert Admitted(Initialized(lib), c) <==> Admitted(lib, c) by {
      if NeedsRunning(c) {
        assert forall i: nat :: LeadsTo(Initialized(lib), c.node, i) <==> LeadsTo(lib, c.node, i);
      }
    }
  }

  /** Every call that makes results publishes exactly one, at the fresh
      address, unless it escapes, which it does exactly under `Escapes`; then
      only the record of network queries may have grown. The other calls
      publish nothing. */
  lemma OneResultUnlessEscaped(urls: Urls, lib: Library, c: Call, ptr: Ptr)
    requires LibInv(lib)
    ensures var (lib', r) := Step(urls, lib, c, ptr);
      && (r.NoResult? <==> !MakesResult(c))
      && (r.Escaped? <==> MakesResult(c) && Escapes(urls, lib, c))
      && (r.Escaped? ==> SameButTraces(Initialized(lib), lib'))
      && (r.Replied? ==> r.result == ptr && ptr in Live(lib') && Live(lib') == Live(lib)[ptr := Live(lib')[ptr]])
      && (!r.Replied? && !c.CleanupLibrary? && !c.ResultDelete? ==> Live(lib') == Live(lib))
      && (c.CleanupLibrary? ==> Live(lib') == map[])
      && (c.ResultDelete? ==> Live(lib') == Live(lib) - {c.result})
  {
    hide Act, LibInv, Escapes;
    if MakesResult(c) {
      InitializedKeeps(lib);
      ForgetInv(lib);
      ForgetInv(Initialized(lib));
      ActThrows(urls, Initialized(lib), c);
      ActStaysInitialized(urls, Initialized(lib), c);
      InitializedEscapes(urls, lib, c);
    }
  }

  lemma ForgetInv(lib: Library)
    requires LibInv(lib)
    ensures Registered(lib)
  {
  }

  /** So the rule "one result per call" fails: creating a client with a valid
      address and an empty stream id escapes. */
  lemma EmptyStreamIdEscapes(urls: Urls, ptr: Ptr)
    ensures Step(urls, INITIAL, ClientNew("0x" + seq(40, _ => '1'), "#1", 1), ptr).1 == Escaped
  {
    hide Step;
    var a := "0x" + seq(40, _ => '1');
    InitialInv();
    assert StreamPart.IsEthereumAddress(a);
    assert StreamPart.Parse("#1").UncaughtError? by {
      assert "" + "#" + "1" == "#1";
      StreamPart.ParseOfDigits("", "1");
      assert NumberOf("1") == 1 by { assert "1"[..0] == []; }
    }
    OneResultUnlessEscaped(urls, INITIAL, ClientNew(a, "#1", 1), ptr);
  }

  /** A call after which the result at `p` is no longer live. */
  predicate Removes(c: Call, p: Ptr) {
    c.CleanupLibrary? || (c.ResultDelete? && c.result == p)
  }

  /** The k-th call returned the result at `p`, and no later call took it away. */
  ghost predicate ReturnedAndKept(urls: Urls, run: Run, k: nat, p: Ptr) {
    && k < |run| && ResponseAt(urls, run, k).Replied? && ResponseAt(urls, run, k).result == p
    && forall j :: k < j < |run| ==> !Removes(run[j].0, p)
  }

  lemma ReturnedSnoc(urls: Urls, run: Run, k: nat, p: Ptr)
    requires run != [] && k < |run| - 1
    ensures ReturnedAndKept(urls, run, k, p)
       <==> ReturnedAndKept(urls, run[..|run| - 1], k, p) && !Removes(run[|run| - 1].0, p)
  {
    hide Exec, Step, Removes;
    var before := run[..|run| - 1];
    assert before[..k] == run[..k] && before[k] == run[k];
    assert forall j :: k < j < |before| ==> before[j] == run[j];
  }

  /** In every run the live results are those returned, minus those deleted,
      minus those cleared by a cleanup. */
  lemma {:induction false} LiveResults(urls: Urls, run: Run, p: Ptr)
    ensures p in Live(Exec(urls, run)) <==> exists k: nat :: ReturnedAndKept(urls, run, k, p)
  {
    hide ReturnedAndKept, Step, LibInv;
    if run == [] {
      assert forall k: nat :: !ReturnedAndKept(urls, run, k, p) by { NothingReturned(urls, run, p); }
    } else {
      var before, last := run[..|run| - 1], |run| - 1;
      LiveResults(urls, before, p);
      RunInv(urls, before);
      OneResultUnlessEscaped(urls, Exec(urls, before), run[last].0, run[last].1);
      LastReturned(urls, run, p);
      if p in Live(Exec(urls, run)) && !ReturnedAndKept(urls, run, last, p) {
        var k: nat :| ReturnedAndKept(urls, before, k, p);
        BoundedReturn(urls, before, k, p);
        ReturnedSnoc(urls, run, k, p);
      }
      forall k: nat | ReturnedAndKept(urls, run, k, p) ensures p in Live(Exec(urls, run)) {
        BoundedReturn(urls, run, k, p);
        if k < last { ReturnedSnoc(urls, run, k, p); }
      }
    }
  }

  lemma BoundedReturn(urls: Urls, run: Run, k: nat, p: Ptr)
    requires ReturnedAndKept(urls, run, k, p)
    ensures k < |run|
  {
  }

  lemma NothingReturned(urls: Urls, run: Run, p: Ptr)
    requires run == []
    ensures forall k: nat :: !ReturnedAndKept(urls, run, k, p)
  {
  }

  lemma LastReturned(urls: Urls, run: Run, p: Ptr)
    requires run != []
    ensures var last := |run| - 1;
      ReturnedAndKept(urls, run, last, p)
      <==> Step(urls, Exec(urls, run[..last]), run[last].0, run[last].1).1.Replied?
           && Step(urls, Exec(urls, run[..last]), run[last].0, run[last].1).1.result == p
  {
    hide Exec, Step;
  }

  /** New results get addresses at which no live result is stored. */
  ghost predicate FreshAddresses(urls: Urls, run: Run) {
    forall k :: 0 <= k < |run| && MakesResult(run[k].0) ==> run[k].1 !in Live(Exec(urls, run[..k]))
  }

  /** As long as a result is live, what it says stays what the call that
      returned it put there. */
  lemma {:induction false} LiveResultKeepsContent(urls: Urls, run: Run, k: nat, p: Ptr)
    requires FreshAddresses(urls, run) && ReturnedAndKept(urls, run, k, p)
    ensures k < |run| && p in Live(Exec(urls, run[..k + 1])) && p in Live(Exec(urls, run))
    ensures Live(Exec(urls, run))[p] == Live(Exec(urls, run[..k + 1]))[p]
    decreases |run|
  {
    hide Exec, Step, LibInv, ReturnedAndKept;
    var last := |run| - 1;
    BoundedReturn(urls, run, k, p);
    LiveResults(urls, run, p);
    if k == last {
      assert run[..k + 1] == run;
    } else {
      var before := run[..last];
      ReturnedSnoc(urls, run, k, p);
      FreshPrefix(urls, run);
      LiveResultKeepsContent(urls, before, k, p);
      assert before[..k + 1] == run[..k + 1];
      ExecSnoc(urls, run, last);
      assert run[..last + 1] == run;
      RunInv(urls, before);
      OneResultUnlessEscaped(urls, Exec(urls, before), run[last].0, run[last].1);
    }
  }

  lemma FreshPrefix(urls: Urls, run: Run)
    requires run != [] && FreshAddresses(urls, run)
    ensures FreshAddresses(urls, run[..|run| - 1])
  {
    hide Exec;
    var before := run[..|run| - 1];
    forall k | 0 <= k < |before| && MakesResult(before[k].0) ensures before[k].1 !in Live(Exec(urls, before[..k])) {
      assert before[k] == run[k] && before[..k] == run[..k];
    }
  }

  // ----- handles -----------------------------------------------------------

  function Known(lib: Library): map<Handle, nat> { Current(lib).nodes }

  /** A creation call that goes through and is given the handle `h`. */
  predicate Issues(urls: Urls, c: Call, h: Handle) {
    c.NodeNew? && c.handle == h && StreamPart.IsEthereumAddress(c.ownAddress)
    && ParsePeers(urls, c.entryPoints, INVALID_ENTRY_POINT_URL).Parsed? && c.built
  }

  predicate Forgets(c: Call, h: Handle) {
    c.CleanupLibrary? || (c.NodeDelete? && c.node == h)
  }

  ghost predicate IssuedAndKept(urls: Urls, run: Run, k: nat, h: Handle) {
    && k < |run| && Issues(urls, run[k].0, h)
    && forall j :: k < j < |run| ==> !Forgets(run[j].0, h)
  }

  lemma StepKnown(urls: Urls, lib: Library, c: Call, ptr: Ptr, h: Handle)
    ensures h in Known(Step(urls, lib, c, ptr).0) <==> Issues(urls, c, h) || (h in Known(lib) && !Forgets(c, h))
  {
    hide NodeOp, ClientOp, ParsePeers, StreamPart.IsEthereumAddress, DestroyAt;
  }

  lemma IssuedSnoc(urls: Urls, run: Run, k: nat, h: Handle)
    requires run != [] && k < |run| - 1
    ensures IssuedAndKept(urls, run, k, h)
       <==> IssuedAndKept(urls, run[..|run| - 1], k, h) && !Forgets(run[|run| - 1].0, h)
  {
    hide Issues, Forgets;
    var before := run[..|run| - 1];
    assert before[k] == run[k];
    assert forall j :: k < j < |before| ==> before[j] == run[j];
  }

  /** In every run a node handle is known exactly when a creation call returned
      it and neither a delete of that handle nor a cleanup came later: after a
      cleanup all handles are unknown until they are issued again. */
  lemma {:induction false} KnownHandles(urls: Urls, run: Run, h: Handle)
    ensures h in Known(Exec(urls, run)) <==> exists k: nat :: IssuedAndKept(urls, run, k, h)
  {
    hide Step, Issues, Forgets;
    if run == [] {
      assert forall k: nat :: !IssuedAndKept(urls, run, k, h);
    } else {
      var before, last := run[..|run| - 1], |run| - 1;
      KnownHandles(urls, before, h);
      StepKnown(urls, Exec(urls, before), run[last].0, run[last].1, h);
      assert IssuedAndKept(urls, run, last, h) <==> Issues(urls, run[last].0, h);
      forall k: nat | k < last
        ensures IssuedAndKept(urls, run, k, h) <==> IssuedAndKept(urls, before, k, h) && !Forgets(run[last].0, h)
      {
        IssuedSnoc(urls, run, k, h);
      }
      if h in Known(Exec(urls, run)) && !Issues(urls, run[last].0, h) {
        var k: nat :| IssuedAndKept(urls, before, k, h);
        assert IssuedAndKept(urls, run, k, h);
      }
    }
  }

  // ----- listeners ---------------------------------------------------------

  /** A subscribe call on wrapper `i` under a handle it already uses. */
  ghost predicate CollidesAt(lib: Library, c: Call, i: nat) {
    c.NodeSubscribe? && LeadsTo(lib, c.node, i) && Collides(lib.wrappers[i], c)
  }

  ghost function Collisions(urls: Urls, run: Run, i: nat): nat {
    if run == [] then 0
    else
      var before, last := run[..|run| - 1], run[|run| - 1];
      Collisions(urls, before, i) + if CollidesAt(Exec(urls, before), last.0, i) then 1 else 0
  }

  lemma {:induction false} CollisionsNeedWrapper(urls: Urls, run: Run, i: nat)
    requires i >= |Exec(urls, run).wrappers|
    ensures Collisions(urls, run, i) == 0
  {
    hide Step, LibInv;
    if run != [] {
      var before, last := run[..|run| - 1], |run| - 1;
      RunInv(urls, before);
      StepKeeps(urls, Exec(urls, before), run[last].0, run[last].1);
      CollisionsNeedWrapper(urls, before, i);
    }
  }

  ghost predicate NotYetStopped(n: Node) { FlagPhase(n) == New || FlagPhase(n) == Running }

  lemma DestroyedOrNew(n: Node, token: Token, out: StopOutcome)
    requires NodeInv(n, token) && NotYetStopped(Destroy(n, out))
    ensures NotYetStopped(n) && Orphans(Destroy(n, out)) == Orphans(n) == 0
  {
  }

  /** How one step changes the number of orphans of one wrapper. */
  ghost predicate OrphansStep(lib: Library, c: Call, lib': Library, i: nat) {
    i < |lib'.wrappers| && NotYetStopped(lib'.wrappers[i]) ==>
      && (i >= |lib.wrappers| ==> Orphans(lib'.wrappers[i]) == 0)
      && (i < |lib.wrappers| ==>
            && NotYetStopped(lib.wrappers[i])
            && Orphans(lib'.wrappers[i]) == Orphans(lib.wrappers[i]) + if CollidesAt(lib, c, i) then 1 else 0)
  }

  lemma NodeActOrphans(urls: Urls, lib: Library, c: Call, i: nat)
    requires LibInv(lib) && lib.api.Some? && IsNodeCall(c)
    ensures OrphansStep(lib, c, NodeAct(urls, lib, lib.api.value, c).0, i)
  {
    hide NodeInv, NodeOp, Collides, Orphans, NotYetStopped, LibInv;
    var nodes := lib.api.value.nodes;
    if c.node in nodes && nodes[c.node] == i && i < |lib.wrappers| {
      ForgetRegistry(lib, i);
      OpOrphansAlive(urls, lib.wrappers[i], lib.nextToken, c);
    }
  }

  lemma ForgetRegistry(lib: Library, i: nat)
    requires LibInv(lib) && i < |lib.wrappers|
    ensures NodeInv(lib.wrappers[i], lib.nextToken)
  {
  }

  lemma DropOrphans(lib: Library, k: nat, out: StopOutcome, i: nat)
    requires LibInv(lib)
    ensures |DestroyAt(lib.wrappers, k, out)| == |lib.wrappers|
    ensures i < |lib.wrappers| && NotYetStopped(DestroyAt(lib.wrappers, k, out)[i]) ==>
      NotYetStopped(lib.wrappers[i]) && Orphans(DestroyAt(lib.wrappers, k, out)[i]) == Orphans(lib.wrappers[i])
  {
    hide NodeInv, Destroy, NotYetStopped, Orphans;
    if i == k < |lib.wrappers| && NotYetStopped(Destroy(lib.wrappers[i], out)) {
      DestroyedOrNew(lib.wrappers[i], lib.nextToken, out);
    }
  }

  lemma ActOrphans(urls: Urls, lib: Library, c: Call, i: nat)
    requires LibInv(lib) && lib.api.Some? && MakesResult(c)
    ensures OrphansStep(lib, c, Act(urls, lib, c).0, i)
  {
    hide NodeAct, ClientOp, ParsePeers, StreamPart.IsEthereumAddress, DestroyAt, Collides, Orphans, NotYetStopped, LibInv;
    var nodes := lib.api.value.nodes;
    if IsNodeCall(c) {
      NodeActOrphans(urls, lib, c, i);
    } else if c.NodeNew? {
      NewNodeOrphans(c.handle);
      if c.handle in nodes { DropOrphans(lib, nodes[c.handle], c.replaced, i); }
    } else if c.NodeDelete? && c.node in nodes {
      DropOrphans(lib, nodes[c.node], c.stop, i);
    }
  }

  lemma NewNodeOrphans(h: Handle)
    ensures forall isolated :: Orphans(NewNode(h, isolated)) == 0
  {
  }

  lemma OpOrphansAlive(urls: Urls, n: Node, token: Token, c: Call)
    requires NodeInv(n, token) && IsNodeCall(c)
    ensures var m := NodeOp(urls, n, token, c).node;
      NotYetStopped(m) ==> NotYetStopped(n) && Orphans(m) == Orphans(n) + if c.NodeSubscribe? && Collides(n, c) then 1 else 0
  {
    hide NodeOp, Orphans, TracePhase, StreamPart.Canonical;
    OpOrphans(urls, n, token, c);
  }

  lemma StepOrphans(urls: Urls, lib: Library, c: Call, ptr: Ptr, i: nat)
    requires LibInv(lib)
    ensures OrphansStep(lib, c, Step(urls, lib, c, ptr).0, i)
  {
    hide LibInv, Act, Collides, Orphans, NotYetStopped;
    var lib' := Step(urls, lib, c, ptr).0;
    if MakesResult(c) {
      InitializedKeeps(lib);
      ActOrphans(urls, Initialized(lib), c, i);
      InitializedCollides(lib, c, i);
    } else if c.CleanupLibrary? && lib.api.Some? && i < |lib.wrappers| && NotYetStopped(lib'.wrappers[i]) {
      CleanupOrphans(lib, c.stops, i);
    }
  }

  lemma InitializedCollides(lib: Library, c: Call, i: nat)
    ensures CollidesAt(Initialized(lib), c, i) <==> CollidesAt(lib, c, i)
  {
    hide Collides;
  }

  lemma CleanupOrphans(lib: Library, stops: Handle -> StopOutcome, i: nat)
    requires LibInv(lib) && lib.api.Some? && i < |lib.wrappers| && NotYetStopped(Cleanup(lib, stops).wrappers[i])
    ensures NotYetStopped(lib.wrappers[i]) && Orphans(Cleanup(lib, stops).wrappers[i]) == Orphans(lib.wrappers[i])
  {
    hide NodeInv, Destroy, NotYetStopped;
    if i in lib.api.value.nodes.Values {
      DestroyedOrNew(lib.wrappers[i], lib.nextToken, stops(lib.wrappers[i].handle));
    }
  }

  /** Until a node is stopped, its listeners that no handle leads to are
      exactly as many as its subscribe calls that drew a handle in use. */
  lemma {:induction false} OrphansAreCollisions(urls: Urls, run: Run, i: nat)
    requires i < |Exec(urls, run).wrappers| && NotYetStopped(Exec(urls, run).wrappers[i])
    ensures Orphans(Exec(urls, run).wrappers[i]) == Collisions(urls, run, i)
  {
    hide Step, LibInv, NotYetStopped, Orphans;
    if run != [] {
      var before, last := run[..|run| - 1], |run| - 1;
      RunInv(urls, before);
      StepOrphans(urls, Exec(urls, before), run[last].0, run[last].1, i);
      if i < |Exec(urls, before).wrappers| {
        OrphansAreCollisions(urls, before, i);
      } else {
        CollisionsNeedWrapper(urls, before, i);
      }
    }
  }

  /** In every run, the subscriptions of a running node are in bijection with
      its listeners if and only if all its subscribe calls drew fresh handles. */
  lemma BijectionIffFreshHandles(urls: Urls, run: Run, i: nat)
    requires i < |Exec(urls, run).wrappers| && FlagPhase(Exec(urls, run).wrappers[i]) == Running
    ensures Bijection(Exec(urls, run).wrappers[i]) <==> Collisions(urls, run, i) == 0
  {
    hide Exec, Collisions, Orphans, NodeInv, Bijection;
    RunInv(urls, run);
    OrphansAreCollisions(urls, run, i);
    BijectionMeansNoOrphans(Exec(urls, run).wrappers[i], Exec(urls, run).nextToken);
  }

  // ----- cleanup -----------------------------------------------------------

  /** When cleanup returns, every wrapper ever made is destroyed, and each one
      that was started has been stopped exactly once; wrappers destroyed
      earlier are untouched, and a second cleanup changes nothing. */
  lemma CleanupStopsEverything(urls: Urls, run: Run, stops: Handle -> StopOutcome, ptr: Ptr, i: nat)
    requires i < |Exec(urls, run).wrappers|
    ensures var lib := Exec(urls, run);
      var lib' := Step(urls, lib, CleanupLibrary(stops), ptr).0;
      && lib'.api == None && |lib'.wrappers| == |lib.wrappers|
      && (var n, m := lib.wrappers[i], lib'.wrappers[i];
          && m.destroyed && m.listeners == map[]
          && m.started == n.started && (m.started ==> HasStop(m.trace)) && Orderly(m.trace)
          && (n.destroyed ==> m == n))
      && Step(urls, lib', CleanupLibrary(stops), ptr) == (lib', NoResult)
  {
    var c := (CleanupLibrary(stops), ptr);
    var run' := run + [c];
    assert run'[..|run|] == run;
    CleanedSize(Exec(urls, run), stops);
    NetworkProtocol(urls, run', i);
    RunInv(urls, run);
    CleanedWrapper(Exec(urls, run), stops, i);
  }

  lemma CleanedSize(lib: Library, stops: Handle -> StopOutcome)
    ensures |Cleanup(lib, stops).wrappers| == |lib.wrappers|
  {
  }

  lemma CleanedWrapper(lib: Library, stops: Handle -> StopOutcome, i: nat)
    requires LibInv(lib) && i < |lib.wrappers|
    ensures var n, m := lib.wrappers[i], Cleanup(lib, stops).wrappers[i];
      m.destroyed && m.listeners == map[] && m.started == n.started && (n.destroyed ==> m == n)
  {
    hide TracePhase;
    var n := lib.wrappers[i];
    assert n.destroyed <==> !Owned(lib, i);
    assert NodeInv(n, lib.nextToken);
    if lib.api.Some? { InValues(lib, i); }
  }
}
