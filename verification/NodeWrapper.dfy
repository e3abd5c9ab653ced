/** The C++ class StreamrNode on top of the C API: it releases every result it
    gets, throws the first error, and owns the callbacks of its listeners. */
module NodeWrapper {
  import opened Options
  import opened PeerList
  import opened NodeSpec
  import opened NodeLife
  import opened NodeRuns
  import opened NodeLedgers
  import opened NodeDelivery
  import opened NodeApi
  import StreamPart

  /** A method returns a value, throws a StreamrNodeError, or lets an exception
      of the C API pass through. */
  datatype Ending = Returned(value: nat) | Threw(code: Code, peer: Option<Peer>) | PassedThrough

  /** `getErrorCode`: codes that the error type does not list become
      ErrorNodeOperationFailed. */
  function ErrorCode(code: Code): Code {
    if code in {INVALID_ETHEREUM_ADDRESS, INVALID_STREAM_PART_ID, NODE_NOT_FOUND, NODE_NOT_STARTED,
                NODE_ALREADY_STARTED, NODE_STOPPED, INVALID_ENTRY_POINT_URL, SUBSCRIPTION_NOT_FOUND}
    then code else NODE_OPERATION_FAILED
  }

  // ----- the library around one call ---------------------------------------

  /** The library without the result at `p`. */
  function Without(lib: Library, p: Ptr): Library {
    lib.(api := Some(Current(lib).(results := Current(lib).results - {p})))
  }

  /** A C call followed by `checkResult`. */
  function Checked(urls: Urls, lib: Library, c: Call, ptr: Ptr): (Library, Ending) {
    var (lib', r) := Step(urls, lib, c, ptr);
    if !r.Replied? || ptr !in Live(lib') then (lib', PassedThrough)
    else
      var errors := Live(lib')[ptr].errors;
      (Without(lib', ptr),
       if errors == [] then Returned(r.value) else Threw(ErrorCode(errors[0].code), errors[0].peer))
  }

  /** Whether it returns or throws, a checked call leaves the live results as
      it found them; and it changes nothing else that the C call does not. */
  lemma CheckedKeepsResults(urls: Urls, lib: Library, c: Call, ptr: Ptr)
    requires LibInv(lib) && MakesResult(c) && ptr !in Live(lib)
    ensures var (lib', e) := Checked(urls, lib, c, ptr);
      && LibInv(lib') && Live(lib') == Live(lib)
      && lib'.wrappers == Step(urls, lib, c, ptr).0.wrappers && Known(lib') == Known(Step(urls, lib, c, ptr).0)
      && (e.PassedThrough? <==> Escapes(urls, lib, c))
  {
    hide Step, LibInv, Escapes;
    OneResultUnlessEscaped(urls, lib, c, ptr);
    StepKeeps(urls, lib, c, ptr);
    var lib' := Step(urls, lib, c, ptr).0;
    if lib'.api.Some? { OtherRegistriesKeep(lib', Without(lib', ptr)); }
  }

  // ----- error codes -------------------------------------------------------

  /** The code for a rejected list, by its first bad peer. */
  lemma PeerFaults(urls: Urls, peers: seq<Peer>, badUrl: Code)
    requires badUrl != INVALID_ETHEREUM_ADDRESS
    ensures var p := ParsePeers(urls, peers, badUrl);
      && (p.Rejected? ==> p.failure.code == badUrl || p.failure.code == INVALID_ETHEREUM_ADDRESS)
      && ((p.Rejected? && p.failure.code == badUrl) <==>
          exists i: nat :: IsFirstBad(urls, peers, i) && StreamPart.IsEthereumAddress(peers[i].ethereumAddress))
  {
    hide ParsePeers, StreamPart.IsEthereumAddress;
    ParsePeersOutcome(urls, peers, badUrl);
    var p := ParsePeers(urls, peers, badUrl);
    if i: nat :| IsFirstBad(urls, peers, i) && StreamPart.IsEthereumAddress(peers[i].ethereumAddress) {
      assert p.Rejected?;
      var k: nat :| IsFirstBad(urls, peers, k) && p.failure == FaultOf(peers[k], badUrl);
      OneFirstBad(urls, peers, i, k);
    }
  }

  lemma OneFirstBad(urls: Urls, peers: seq<Peer>, i: nat, k: nat)
    requires IsFirstBad(urls, peers, i) && IsFirstBad(urls, peers, k)
    ensures i == k
  {
  }

  /** The call gets as far as its peers, and the first bad one has a good
      address, so that its URL is what is wrong with it. */
  ghost predicate RefusesUrl(urls: Urls, n: Node, c: Call) {
    && c.NodeSetProxies? && FlagPhase(n) == Running && StreamPart.Canonical(c.streamPart).Ok?
    && (c.direction == 0 || c.direction == 1)
    && exists i: nat :: IsFirstBad(urls, c.proxies, i) && StreamPart.IsEthereumAddress(c.proxies[i].ethereumAddress)
  }

  /** The code that is thrown is the code the C API reports, except when
      `setProxies` is given an invalid URL: that code is not in the error type. */
  lemma ThrownCodeIsReported(urls: Urls, n: Node, token: Token, c: Call)
    requires IsNodeCall(c)
    ensures var a := NodeOp(urls, n, token, c).answer;
      a.Answer? && a.errors != [] ==>
        |a.errors| == 1 && (ErrorCode(a.errors[0].code) == a.errors[0].code <==> !RefusesUrl(urls, n, c))
  {
    hide StreamPart.Canonical, StreamPart.MessageFor, StreamPart.ListenerFor, ParsePeers, StartNode, StopNode;
    if c.NodeJoin? { PeerFaults(urls, c.entryPoints, INVALID_ENTRY_POINT_URL); }
    if c.NodeSetProxies? { PeerFaults(urls, c.proxies, INVALID_PROXY_URL); }
  }

  // ----- callbacks ---------------------------------------------------------

  /** Every listener on the node behind `h` passes on a callback in `owned`. */
  ghost predicate OwnsCallbacks(lib: Library, h: Handle, owned: set<nat>) {
    forall i: nat, t :: LeadsTo(lib, h, i) && t in lib.wrappers[i].listeners ==> lib.wrappers[i].listeners[t].userData in owned
  }

  lemma StepIndex(urls: Urls, lib: Library, c: Call, ptr: Ptr, h: Handle, i: nat)
    requires LibInv(lib) && LeadsTo(Step(urls, lib, c, ptr).0, h, i) && i < |lib.wrappers|
    ensures LeadsTo(lib, h, i)
  {
    hide NodeInv, NodeOp, ClientOp, ParsePeers, StreamPart.IsEthereumAddress, Destroy;
  }

  /** No call other than a subscribe on the same node puts a foreign callback
      on it, not even the reissue of its handle. */
  lemma OwnershipKept(urls: Urls, lib: Library, c: Call, ptr: Ptr, h: Handle, owned: set<nat>)
    requires LibInv(lib) && OwnsCallbacks(lib, h, owned)
    requires c.NodeSubscribe? && c.node == h ==> c.userData in owned
    ensures OwnsCallbacks(Step(urls, lib, c, ptr).0, h, owned)
  {
    hide Step, NodeInv, Installs, StreamPart.Canonical;
    var lib' := Step(urls, lib, c, ptr).0;
    forall i: nat, t | LeadsTo(lib', h, i) && t in lib'.wrappers[i].listeners
      ensures lib'.wrappers[i].listeners[t].userData in owned
    {
      StepGains(urls, lib, c, ptr, i);
      if i < |lib.wrappers| {
        StepIndex(urls, lib, c, ptr, h, i);
      }
    }
  }

  lemma InstallsSucceeds(urls: Urls, n: Node, token: Token, c: Call)
    requires Installs(n, c)
    ensures NodeOp(urls, n, token, c).answer == Finish(true, c.handle)
  {
    hide StreamPart.Canonical, StreamPart.ListenerFor;
    ListenerForCanonical(c.node, c.streamPart);
  }

  /** A subscribe call that throws has installed nothing, so that its callback
      may be freed. */
  lemma FailedSubscribeInstallsNothing(urls: Urls, lib: Library, c: Call, ptr: Ptr, owned: set<nat>)
    requires LibInv(lib) && c.NodeSubscribe? && OwnsCallbacks(lib, c.node, owned) && ptr !in Live(lib)
    requires !Checked(urls, lib, c, ptr).1.Returned?
    ensures OwnsCallbacks(Step(urls, lib, c, ptr).0, c.node, owned)
  {
    hide NodeOp, LibInv, Installs;
    var lib' := Step(urls, lib, c, ptr).0;
    forall i: nat, t | LeadsTo(lib', c.node, i) && t in lib'.wrappers[i].listeners
      ensures lib'.wrappers[i].listeners[t].userData in owned
    {
      StepGains(urls, lib, c, ptr, i);
      if i < |lib.wrappers| {
        StepIndex(urls, lib, c, ptr, c.node, i);
        assert Installs(lib.wrappers[i], c) ==> Checked(urls, lib, c, ptr).1.Returned? by {
          if Installs(lib.wrappers[i], c) { InstallsSucceeds(urls, lib.wrappers[i], lib.nextToken, c); }
        }
      }
    }
  }

  /** A creation call returns its handle exactly when it is accepted, and there
      are no listeners on a new node. */
  lemma NewNodeIsBare(urls: Urls, lib: Library, c: Call, ptr: Ptr)
    requires LibInv(lib) && c.NodeNew? && ptr !in Live(lib)
    ensures var e := Checked(urls, lib, c, ptr).1;
      && (e.Returned? <==> Issues(urls, c, c.handle)) && (e.Returned? ==> e.value == c.handle)
    ensures Issues(urls, c, c.handle) ==> OwnsCallbacks(Step(urls, lib, c, ptr).0, c.handle, {})
  {
    hide LibInv, ParsePeers, StreamPart.IsEthereumAddress, DestroyAt, ErrorCode;
  }

  /** The library after the destructor of an object with handle `h`. */
  function Destructed(urls: Urls, lib: Library, h: Handle, out: StopOutcome, ptr: Ptr): Library {
    if h == 0 then lib else Without(Step(urls, lib, NodeDelete(h, out), ptr).0, ptr)
  }

  // ----- the class ---------------------------------------------------------

  class StreamrNode {
    const lib: Globals
    var nodeHandle: Handle
    /** The callbacks this object keeps alive, by their addresses. */
    var subscriptionCallbacks: seq<nat>

    constructor (lib: Globals, nodeHandle: Handle)
      ensures this.lib == lib && this.nodeHandle == nodeHandle && subscriptionCallbacks == []
    {
      this.lib, this.nodeHandle, subscriptionCallbacks := lib, nodeHandle, [];
    }

    /** The C++ constructor, which fails by throwing: an object exists only if
        the C API has made a node, and then it owns all callbacks on it. */
    static method Create(urls: Urls, lib: Globals, c: Call, ptr: Ptr) returns (node: StreamrNode?, e: Ending)
      requires lib.Valid() && LibInv(lib.View()) && ptr !in Live(lib.View()) && c.NodeNew?
      modifies lib, lib.libProxyClientApi, lib.tokens, lib.made
      ensures lib.Valid() && LibInv(lib.View()) && (lib.View(), e) == Checked(urls, old(lib.View()), c, ptr)
      ensures Live(lib.View()) == old(Live(lib.View()))
      ensures (node != null <==> e.Returned?) && (e.Returned? <==> Issues(urls, c, c.handle))
      ensures node != null ==> node.lib == lib && node.nodeHandle == c.handle
      ensures node != null ==> OwnsCallbacks(lib.View(), node.nodeHandle, node.Callbacks())
    {
      hide Step, LibInv, Globals.Valid, Globals.View, OwnsCallbacks, Checked, Issues;
      CheckedKeepsResults(urls, lib.View(), c, ptr);
      NewNodeIsBare(urls, lib.View(), c, ptr);
      ghost var after := Step(urls, lib.View(), c, ptr).0;
      e := CallAndCheck(urls, lib, c, ptr);
      node := null;
      if e.Returned? {
        node := new StreamrNode(lib, e.value);
        assert node.Callbacks() == {};
        OwnershipIgnoresResults(after, lib.View(), c.handle, {});
      }
    }

    ghost function Callbacks(): set<nat>
      reads this
    {
      set u | u in subscriptionCallbacks
    }

    /** `start`, `stop`, `joinStreamPart`, `leaveStreamPart`, `publish`,
        `unsubscribe`, `neighborCount` and `setProxies`: the C call with this
        node's handle, then `checkResult`. */
    method Do(urls: Urls, c: Call, ptr: Ptr) returns (e: Ending)
      requires lib.Valid() && LibInv(lib.View()) && ptr !in Live(lib.View())
      requires IsNodeCall(c) && !c.NodeSubscribe? && c.node == nodeHandle
      requires OwnsCallbacks(lib.View(), nodeHandle, Callbacks())
      modifies lib, lib.libProxyClientApi, lib.tokens, lib.made
      ensures lib.Valid() && LibInv(lib.View()) && (lib.View(), e) == Checked(urls, old(lib.View()), c, ptr)
      ensures Live(lib.View()) == old(Live(lib.View()))
      ensures OwnsCallbacks(lib.View(), nodeHandle, Callbacks())
    {
      hide Step, LibInv, Globals.Valid, Globals.View, OwnsCallbacks, Escapes, Checked;
      OwnershipKept(urls, lib.View(), c, ptr, nodeHandle, Callbacks());
      CheckedKeepsResults(urls, lib.View(), c, ptr);
      e := CallAndCheck(urls, lib, c, ptr);
      OwnershipIgnoresResults(Step(urls, old(lib.View()), c, ptr).0, lib.View(), nodeHandle, Callbacks());
    }

    /** The callback is handed to the C API first and kept only on success. */
    method Subscribe(urls: Urls, c: Call, ptr: Ptr) returns (e: Ending)
      requires lib.Valid() && LibInv(lib.View()) && ptr !in Live(lib.View())
      requires c.NodeSubscribe? && c.node == nodeHandle && c.callback
      requires OwnsCallbacks(lib.View(), nodeHandle, Callbacks())
      modifies this`subscriptionCallbacks, lib, lib.libProxyClientApi, lib.tokens, lib.made
      ensures lib.Valid() && LibInv(lib.View()) && (lib.View(), e) == Checked(urls, old(lib.View()), c, ptr)
      ensures Live(lib.View()) == old(Live(lib.View()))
      ensures subscriptionCallbacks == old(subscriptionCallbacks) + (if e.Returned? then [c.userData] else [])
      ensures OwnsCallbacks(lib.View(), nodeHandle, Callbacks())
    {
      hide Step, LibInv, Globals.Valid, Globals.View, OwnsCallbacks, Escapes, Checked;
      ghost var before, owned := lib.View(), Callbacks();
      OwnsMore(before, nodeHandle, owned, owned + {c.userData});
      OwnershipKept(urls, before, c, ptr, nodeHandle, owned + {c.userData});
      CheckedKeepsResults(urls, lib.View(), c, ptr);
      e := CallAndCheck(urls, lib, c, ptr);
      ghost var after := Step(urls, before, c, ptr).0;
      if e.Returned? {
        subscriptionCallbacks := subscriptionCallbacks + [c.userData];
        assert Callbacks() == owned + {c.userData};
      } else {
        FailedSubscribeInstallsNothing(urls, before, c, ptr, owned);
      }
      OwnershipIgnoresResults(after, lib.View(), nodeHandle, Callbacks());
    }

    /** Afterwards the handle leads nowhere, and so no listener can reach a
        callback that is freed with this object; a node that was given handle
        0 is left behind. */
    method Destructor(urls: Urls, out: StopOutcome, ptr: Ptr)
      requires lib.Valid() && LibInv(lib.View()) && ptr !in Live(lib.View())
      modifies lib, lib.libProxyClientApi, lib.tokens, lib.made
      ensures lib.Valid() && LibInv(lib.View()) && Live(lib.View()) == old(Live(lib.View()))
      ensures nodeHandle != 0 ==> nodeHandle !in Known(lib.View())
      ensures lib.View() == Destructed(urls, old(lib.View()), nodeHandle, out, ptr)
    {
      hide Step, LibInv, Globals.Valid, Globals.View;
      if nodeHandle != 0 {
        var c := NodeDelete(nodeHandle, out);
        StepKnown(urls, lib.View(), c, ptr, nodeHandle);
        CheckedKeepsResults(urls, lib.View(), c, ptr);
        OneResultUnlessEscaped(urls, lib.View(), c, ptr);
        var _ := CallAndCheck(urls, lib, c, ptr);
      }
    }
  }

  /** `checkResult`: the first error is read before the result is deleted. */
  method CheckResult(lib: Globals, r: Response) returns (e: Ending)
    requires lib.Valid() && lib.libProxyClientApi != null && r.Replied? && r.result in lib.libProxyClientApi.results
    modifies lib.libProxyClientApi
    ensures lib.Valid() && lib.View() == Without(old(lib.View()), r.result)
    ensures var errors := old(lib.libProxyClientApi.results[r.result].errors);
      e == if errors == [] then Returned(r.value) else Threw(ErrorCode(errors[0].code), errors[0].peer)
  {
    hide StreamrNodeWrapper.View, ErrorCode;
    var errors := lib.libProxyClientApi.results[r.result].errors;
    if errors != [] {
      e := Threw(ErrorCode(errors[0].code), errors[0].peer);
      lib.StreamrResultDelete(r.result);
      return;
    }
    lib.StreamrResultDelete(r.result);
    e := Returned(r.value);
  }

  /** A C call followed by `checkResult`, unless an exception leaves the C call. */
  method CallAndCheck(urls: Urls, lib: Globals, c: Call, ptr: Ptr) returns (e: Ending)
    requires lib.Valid() && LibInv(lib.View()) && ptr !in Live(lib.View()) && MakesResult(c)
    modifies lib, lib.libProxyClientApi, lib.tokens, lib.made
    ensures lib.Valid() && (lib.View(), e) == Checked(urls, old(lib.View()), c, ptr)
  {
    hide Step, LibInv, Globals.Valid, Escapes, ErrorCode;
    OneResultUnlessEscaped(urls, lib.View(), c, ptr);
    var r := lib.Perform(urls, c, ptr);
    if r.Escaped? {
      return PassedThrough;
    }
    e := CheckResult(lib, r);
  }

  lemma OwnershipIgnoresResults(lib: Library, lib': Library, h: Handle, owned: set<nat>)
    requires OwnsCallbacks(lib, h, owned) && lib'.wrappers == lib.wrappers && Known(lib') == Known(lib)
    ensures OwnsCallbacks(lib', h, owned)
  {
  }

  lemma OwnsMore(lib: Library, h: Handle, owned: set<nat>, more: set<nat>)
    requires OwnsCallbacks(lib, h, owned) && owned <= more
    ensures OwnsCallbacks(lib, h, more)
  {
  }
}
