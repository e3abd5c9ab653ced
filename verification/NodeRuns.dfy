/** What holds in every serialized run of calls on the library. */
module NodeRuns {
  import opened Options
  import opened NodeSpec
  import opened NodeLife
  import opened PeerList
  import StreamPart

  // ----- the invariant -----------------------------------------------------

  /** The wrapper is the one its handle leads to. */
  ghost predicate Owned(lib: Library, i: nat)
    requires i < |lib.wrappers|
  {
    && lib.api.Some?
    && lib.wrappers[i].handle in lib.api.value.nodes
    && lib.api.value.nodes[lib.wrappers[i].handle] == i
  }

  /** Handles lead to their own wrappers, and a wrapper is alive exactly as
      long as its handle leads to it. */
  ghost predicate Registered(lib: Library) {
    && (lib.api.Some? ==> forall h :: h in lib.api.value.nodes ==>
          lib.api.value.nodes[h] < |lib.wrappers| && lib.wrappers[lib.api.value.nodes[h]].handle == h)
    && (forall i: nat :: i < |lib.wrappers| ==> (lib.wrappers[i].destroyed <==> !Owned(lib, i)))
  }

  ghost predicate AllInv(lib: Library) {
    forall i :: 0 <= i < |lib.wrappers| ==> NodeInv(lib.wrappers[i], lib.nextToken)
  }

  ghost predicate LibInv(lib: Library) { Registered(lib) && AllInv(lib) }

  /** Wrappers are never forgotten and only move forwards. */
  ghost predicate Forward(lib: Library, lib': Library) {
    && lib.nextToken <= lib'.nextToken
    && |lib.wrappers| <= |lib'.wrappers|
    && forall i :: 0 <= i < |lib.wrappers| ==> Later(lib.wrappers[i], lib'.wrappers[i])
  }

  ghost predicate Keeps(lib: Library, lib': Library) { LibInv(lib') && Forward(lib, lib') }

  lemma LaterTrans(a: Node, b: Node, c: Node)
    requires Later(a, b) && Later(b, c)
    ensures Later(a, c)
  {
  }

  lemma ForwardTrans(a: Library, b: Library, c: Library)
    requires Forward(a, b) && Forward(b, c)
    ensures Forward(a, c)
  {
    hide Later;
    forall i | 0 <= i < |a.wrappers| ensures Later(a.wrappers[i], c.wrappers[i]) {
      LaterTrans(a.wrappers[i], b.wrappers[i], c.wrappers[i]);
    }
  }

  lemma InitializedKeeps(lib: Library)
    requires LibInv(lib)
    ensures Keeps(lib, Initialized(lib))
  {
    hide NodeInv;
    var lib' := Initialized(lib);
    forall i: nat | i < |lib.wrappers| ensures lib'.wrappers[i].destroyed <==> !Owned(lib', i) {
      assert lib.wrappers[i].destroyed <==> !Owned(lib, i);
    }
  }

  /** One wrapper changes in place. */
  lemma ReplaceKeeps(lib: Library, i: nat, m: Node, token: Token)
    requires LibInv(lib) && i < |lib.wrappers| && Good(lib.wrappers[i], lib.nextToken, m, token)
    ensures Keeps(lib, lib.(wrappers := lib.wrappers[i := m], nextToken := token))
  {
    hide NodeInv;
    var lib' := lib.(wrappers := lib.wrappers[i := m], nextToken := token);
    forall j | 0 <= j < |lib.wrappers| ensures NodeInv(lib'.wrappers[j], token) {
      if j != i { TokenGrows(lib.wrappers[j], lib.nextToken, token); }
    }
    forall j: nat | j < |lib.wrappers| ensures lib'.wrappers[j].destroyed <==> !Owned(lib', j) {
      assert lib.wrappers[j].destroyed <==> !Owned(lib, j);
    }
  }

  lemma NodeActKeeps(urls: Urls, lib: Library, c: Call)
    requires LibInv(lib) && lib.api.Some? && IsNodeCall(c)
    ensures Keeps(lib, NodeAct(urls, lib, lib.api.value, c).0)
  {
    hide NodeInv, NodeOp, Good, Later;
    var nodes := lib.api.value.nodes;
    if c.node in nodes {
      var i := nodes[c.node];
      assert Owned(lib, i);
      NodeOpGood(urls, lib.wrappers[i], lib.nextToken, c);
      var o := NodeOp(urls, lib.wrappers[i], lib.nextToken, c);
      ReplaceKeeps(lib, i, o.node, o.nextToken);
    } else {
      SameIsForward(lib, lib);
    }
  }

  lemma SameIsForward(lib: Library, lib': Library)
    requires lib'.wrappers == lib.wrappers && lib'.nextToken == lib.nextToken
    ensures Forward(lib, lib')
  {
  }

  /** Taking a handle out of the map destroys its wrapper. */
  function Dropped(lib: Library, h: Handle, out: StopOutcome): Library
    requires lib.api.Some? && h in lib.api.value.nodes
  {
    var api := lib.api.value;
    lib.(wrappers := DestroyAt(lib.wrappers, api.nodes[h], out), api := Some(api.(nodes := api.nodes - {h})))
  }

  lemma DroppedKeeps(lib: Library, h: Handle, out: StopOutcome)
    requires LibInv(lib) && lib.api.Some? && h in lib.api.value.nodes
    ensures Keeps(lib, Dropped(lib, h, out))
  {
    hide NodeInv, Destroy, Later;
    var lib' := Dropped(lib, h, out);
    var k := lib.api.value.nodes[h];
    assert Owned(lib, k);
    DestroyGood(lib.wrappers[k], lib.nextToken, out);
    DestroyedFields(lib.wrappers[k], out);
    SameIsForward(lib, lib);
    forall i: nat | i < |lib.wrappers| ensures lib'.wrappers[i].destroyed <==> !Owned(lib', i) {
      assert lib.wrappers[i].destroyed <==> !Owned(lib, i);
    }
  }

  lemma DestroyedFields(n: Node, out: StopOutcome)
    ensures Destroy(n, out).destroyed && Destroy(n, out).handle == n.handle
  {
  }

  /** A wrapper is added under a handle that leads nowhere. */
  lemma AddedKeeps(lib: Library, h: Handle, isolated: bool)
    requires LibInv(lib) && lib.api.Some? && h !in lib.api.value.nodes
    ensures var api := lib.api.value;
      Keeps(lib, lib.(wrappers := lib.wrappers + [NewNode(h, isolated)],
                      api := Some(api.(nodes := api.nodes[h := |lib.wrappers|]))))
  {
    hide NodeInv, Later;
    var api := lib.api.value;
    var lib' := lib.(wrappers := lib.wrappers + [NewNode(h, isolated)],
                     api := Some(api.(nodes := api.nodes[h := |lib.wrappers|])));
    NewNodeInv(h, isolated, lib.nextToken);
    SameIsForward(lib, lib);
    forall i: nat | i < |lib'.wrappers| ensures lib'.wrappers[i].destroyed <==> !Owned(lib', i) {
      if i < |lib.wrappers| { assert lib.wrappers[i].destroyed <==> !Owned(lib, i); }
    }
  }

  /** The replaced wrapper, if any, is dropped before the new one is added. */
  lemma NodeNewKeeps(urls: Urls, lib: Library, c: Call)
    requires LibInv(lib) && lib.api.Some? && c.NodeNew?
    ensures Keeps(lib, NodeNewAct(urls, lib, lib.api.value, c).0)
  {
    hide LibInv, Forward, ParsePeers, StreamPart.IsEthereumAddress, Destroy;
    SameIsForward(lib, lib);
    var api := lib.api.value;
    var r := ParsePeers(urls, c.entryPoints, INVALID_ENTRY_POINT_URL);
    if StreamPart.IsEthereumAddress(c.ownAddress) && r.Parsed? && c.built {
      var isolated := r.descriptors == [] && c.websocketPort == 0;
      if c.handle in api.nodes {
        DroppedKeeps(lib, c.handle, c.replaced);
        var mid := Dropped(lib, c.handle, c.replaced);
        AddedKeeps(mid, c.handle, isolated);
        assert (api.nodes - {c.handle})[c.handle := |mid.wrappers|] == api.nodes[c.handle := |mid.wrappers|];
        ForwardTrans(lib, mid, NodeNewAct(urls, lib, api, c).0);
      } else {
        AddedKeeps(lib, c.handle, isolated);
      }
    }
  }

  /** Neither clients nor results matter to the invariant. */
  lemma OtherRegistriesKeep(lib: Library, lib': Library)
    requires LibInv(lib) && lib.api.Some? && lib'.api.Some? && lib'.wrappers == lib.wrappers
    requires lib'.nextToken == lib.nextToken && lib'.api.value.nodes == lib.api.value.nodes
    ensures Keeps(lib, lib')
  {
    hide NodeInv, Later;
    SameIsForward(lib, lib');
    forall i: nat | i < |lib.wrappers| ensures lib'.wrappers[i].destroyed <==> !Owned(lib', i) {
      assert lib.wrappers[i].destroyed <==> !Owned(lib, i);
    }
  }

  lemma ActKeeps(urls: Urls, lib: Library, c: Call)
    requires LibInv(lib) && lib.api.Some? && MakesResult(c)
    ensures Keeps(lib, Act(urls, lib, c).0) && Act(urls, lib, c).0.api.Some?
  {
    hide LibInv, Forward, ClientOp, NodeAct, NodeNewAct;
    var lib' := Act(urls, lib, c).0;
    ActStaysInitialized(urls, lib, c);
    SameIsForward(lib, lib);
    if c.NodeNew? {
      NodeNewKeeps(urls, lib, c);
    } else if c.NodeDelete? {
      if c.node in lib.api.value.nodes { DroppedKeeps(lib, c.node, c.stop); }
    } else if IsClientCall(c) {
      OtherRegistriesKeep(lib, lib');
    } else {
      NodeActKeeps(urls, lib, c);
    }
  }

  lemma ActStaysInitialized(urls: Urls, lib: Library, c: Call)
    requires lib.api.Some? && MakesResult(c)
    ensures var lib' := Act(urls, lib, c).0; lib'.api.Some? && lib'.api.value.results == lib.api.value.results
  {
    hide ClientOp, NodeOp, ParsePeers, StreamPart.IsEthereumAddress;
  }

  /** Cleanup destroys every wrapper that was alive and leaves the others alone. */
  lemma CleanupKeeps(lib: Library, stops: Handle -> StopOutcome)
    requires LibInv(lib)
    ensures Keeps(lib, Cleanup(lib, stops))
  {
    hide NodeInv, Later, Destroy;
    var lib' := Cleanup(lib, stops);
    SameIsForward(lib, lib);
    if lib.api.Some? {
      forall i: nat | i < |lib.wrappers|
        ensures NodeInv(lib'.wrappers[i], lib.nextToken) && Later(lib.wrappers[i], lib'.wrappers[i])
        ensures lib'.wrappers[i].destroyed
      {
        var n := lib.wrappers[i];
        assert n.destroyed <==> !Owned(lib, i);
        InValues(lib, i);
        if Owned(lib, i) {
          DestroyGood(n, lib.nextToken, stops(n.handle));
          DestroyedFields(n, stops(n.handle));
        }
      }
    }
  }

  lemma InValues(lib: Library, i: nat)
    requires Registered(lib) && lib.api.Some? && i < |lib.wrappers|
    ensures i in lib.api.value.nodes.Values <==> Owned(lib, i)
  {
  }

  lemma StepKeeps(urls: Urls, lib: Library, c: Call, ptr: Ptr)
    requires LibInv(lib)
    ensures Keeps(lib, Step(urls, lib, c, ptr).0)
  {
    hide LibInv, Forward, Act, Cleanup;
    InitializedKeeps(lib);
    var lib1, lib' := Initialized(lib), Step(urls, lib, c, ptr).0;
    if c.CleanupLibrary? {
      CleanupKeeps(lib, c.stops);
    } else if c.ResultDelete? {
      OtherRegistriesKeep(lib1, lib');
      ForwardTrans(lib, lib1, lib');
    } else if MakesResult(c) {
      ActKeeps(urls, lib1, c);
      var (lib2, a) := Act(urls, lib1, c);
      ForwardTrans(lib, lib1, lib2);
      if a.Answer? {
        OtherRegistriesKeep(lib2, lib');
        ForwardTrans(lib, lib2, lib');
      }
    }
  }

  lemma {:induction false} RunInv(urls: Urls, run: Run)
    ensures LibInv(Exec(urls, run))
  {
    hide LibInv, Forward, Step;
    if run == [] {
      assert LibInv(INITIAL) by { InitialInv(); }
    } else {
      var before := run[..|run| - 1];
      RunInv(urls, before);
      StepKeeps(urls, Exec(urls, before), run[|run| - 1].0, run[|run| - 1].1);
    }
  }

  lemma InitialInv()
    ensures LibInv(INITIAL)
  {
  }

  // ----- network protocol, over all runs -----------------------------------

  /** In every run and for every wrapper ever made: the network node was
      started at most once and before anything else, stopped at most once,
      afterwards only rid of listeners; the flags say exactly which; and a
      destroyed wrapper was stopped if it was ever started. */
  lemma NetworkProtocol(urls: Urls, run: Run, i: nat)
    requires i < |Exec(urls, run).wrappers|
    ensures var n := Exec(urls, run).wrappers[i];
      && Orderly(n.trace)
      && (n.started <==> n.trace != []) && (n.stopped <==> HasStop(n.trace))
      && (n.destroyed && n.started ==> HasStop(n.trace))
  {
    hide Exec, TracePhase;
    RunInv(urls, run);
    var n := Exec(urls, run).wrappers[i];
    assert NodeInv(n, Exec(urls, run).nextToken);
    PhaseIsOrder(n.trace);
    assert HasStop(n.trace) ==> n.trace != [];
  }

  /** From any point of a run to its end no wrapper is lost, its trace only
      grows, its phase never goes back, and once destroyed it never changes. */
  lemma {:induction false} History(urls: Urls, run: Run, k: nat)
    requires k <= |run|
    ensures Forward(Exec(urls, run[..k]), Exec(urls, run))
    decreases |run|
  {
    hide Forward, Step, LibInv;
    if k == |run| {
      assert run[..k] == run;
      SameIsForward(Exec(urls, run), Exec(urls, run));
    } else {
      var before := run[..|run| - 1];
      History(urls, before, k);
      assert before[..k] == run[..k];
      RunInv(urls, before);
      StepKeeps(urls, Exec(urls, before), run[|run| - 1].0, run[|run| - 1].1);
      ForwardTrans(Exec(urls, run[..k]), Exec(urls, before), Exec(urls, run));
    }
  }

  /** The wrapper a handle leads to. */
  ghost predicate LeadsTo(lib: Library, h: Handle, i: nat) {
    lib.api.Some? && h in lib.api.value.nodes && lib.api.value.nodes[h] == i && i < |lib.wrappers|
  }

  /** A guarded call on a node that is not running is refused with the code of
      its phase and changes nothing but for the new result. */
  lemma RefusedUnlessRunning(urls: Urls, lib: Library, c: Call, ptr: Ptr, i: nat)
    requires LibInv(lib) && NeedsRunning(c) && LeadsTo(lib, c.node, i) && FlagPhase(lib.wrappers[i]) != Running
    ensures Step(urls, lib, c, ptr)
         == Publish(lib, ptr, Error(if FlagPhase(lib.wrappers[i]) == New then NODE_NOT_STARTED else NODE_STOPPED))
  {
    hide TracePhase, StreamPart.Canonical, PartOp;
    var n := lib.wrappers[i];
    assert NodeInv(n, lib.nextToken);
    assert NodeOp(urls, n, lib.nextToken, c)
        == Outcome(n, lib.nextToken, Error(if FlagPhase(n) == New then NODE_NOT_STARTED else NODE_STOPPED));
    assert lib.wrappers[i := n] == lib.wrappers;
    assert Initialized(lib) == lib;
  }

  /** If starting fails, the node ends up stopped after exactly one teardown,
      and in every continuation of the run a start on it is refused. */
  lemma FailedStartIsFinal(urls: Urls, run: Run, k: nat, i: nat, out: StartOutcome, ptr: Ptr)
    requires k < |run| && run[k].0.NodeStart? && LeadsTo(Exec(urls, run[..k]), run[k].0.node, i)
    requires var n := Exec(urls, run[..k]).wrappers[i]; FlagPhase(n) == New && !StartSucceeds(n, run[k].0.start)
    ensures i < |Exec(urls, run[..k + 1]).wrappers|
    ensures var n := Exec(urls, run[..k + 1]).wrappers[i];
      FlagPhase(n) == Stopped && |n.trace| >= 2 && n.trace[|n.trace| - 1] == NetStop
      && forall j :: 0 < j < |n.trace| - 1 ==> n.trace[j] == NetJoinDht
    ensures i < |Exec(urls, run).wrappers| && FlagPhase(Exec(urls, run).wrappers[i]) == Stopped
    ensures forall h :: LeadsTo(Exec(urls, run), h, i) ==>
      Step(urls, Exec(urls, run), NodeStart(h, out), ptr) == Publish(Exec(urls, run), ptr, Error(NODE_STOPPED))
  {
    hide Exec, TracePhase, LibInv;
    var lib, c := Exec(urls, run[..k]), run[k].0;
    StartStepFails(urls, run, k, i);
    History(urls, run, k + 1);
    RunInv(urls, run);
    forall h | LeadsTo(Exec(urls, run), h, i)
      ensures Step(urls, Exec(urls, run), NodeStart(h, out), ptr) == Publish(Exec(urls, run), ptr, Error(NODE_STOPPED))
    {
      StoppedRefusesStart(urls, Exec(urls, run), h, i, out, ptr);
    }
  }

  lemma ExecSnoc(urls: Urls, run: Run, k: nat)
    requires k < |run|
    ensures Exec(urls, run[..k + 1]) == Step(urls, Exec(urls, run[..k]), run[k].0, run[k].1).0
  {
    assert run[..k + 1][..k] == run[..k];
  }

  lemma StartStepFails(urls: Urls, run: Run, k: nat, i: nat)
    requires k < |run| && run[k].0.NodeStart? && LeadsTo(Exec(urls, run[..k]), run[k].0.node, i)
    requires var n := Exec(urls, run[..k]).wrappers[i]; FlagPhase(n) == New && !StartSucceeds(n, run[k].0.start)
    ensures i < |Exec(urls, run[..k + 1]).wrappers|
    ensures var n := Exec(urls, run[..k + 1]).wrappers[i];
      FlagPhase(n) == Stopped && |n.trace| >= 2 && n.trace[|n.trace| - 1] == NetStop
      && forall j :: 0 < j < |n.trace| - 1 ==> n.trace[j] == NetJoinDht
  {
    hide Exec, TracePhase;
    var lib, c := Exec(urls, run[..k]), run[k].0;
    ExecSnoc(urls, run, k);
    RunInv(urls, run[..k]);
    var n := lib.wrappers[i];
    assert NodeInv(n, lib.nextToken);
    PhaseIsOrder(n.trace);
    assert n.trace == [];
    assert NodeOp(urls, n, lib.nextToken, c) == Outcome(StartNode(n, c.start), lib.nextToken, Error(NODE_OPERATION_FAILED));
    assert Initialized(lib) == lib;
  }

  lemma StoppedRefusesStart(urls: Urls, lib: Library, h: Handle, i: nat, out: StartOutcome, ptr: Ptr)
    requires LeadsTo(lib, h, i) && FlagPhase(lib.wrappers[i]) == Stopped
    ensures Step(urls, lib, NodeStart(h, out), ptr) == Publish(lib, ptr, Error(NODE_STOPPED))
  {
    hide NodeLife.TracePhase;
    var n := lib.wrappers[i];
    assert lib.wrappers[i := n] == lib.wrappers;
    assert Initialized(lib) == lib;
  }
}
