/** The stop/destroy protocol of StreamrNodeWrapper under arbitrary
    interleavings. Each atomic load, store or exchange, each region under
    `streamrNodesMutex`, each foreign call and each reference drop is one step;
    any number of threads take steps in any order. */
module StopProtocol {
  import opened Options

  type NodeId = nat    // identity of a wrapper; never reused
  type Tid = nat
  type Handle = nat

  /** A wrapper: its two flags, its shared_ptr count, and how often the
      network node's start and stop have been invoked. */
  datatype Node = Node(started: bool, stopped: bool, refs: nat, starts: nat, stops: nat, destroyed: bool)

  /** Who called `StreamrNodeWrapper::stop`. */
  datatype Caller = ApiStop | FailedStart | Destructor

  /** The step a thread is about to take. */
  datatype Pc =
    | Idle
    | StartLoadStopped | StartLoadStarted | StartNet | StartStoreStarted | FailStoreStarted | FailStoreStopped
    | StopCheckStarted
    | StopLoad(caller: Caller) | StopExchange(caller: Caller) | StopNet(caller: Caller)
    | UseLoadStarted | UseLoadStopped | UseNet | UnsubscribeNet
    | Publish(handle: Handle)
    | Release
    | Free

  /** `cur` is the wrapper the thread works on; `extra` a second one it still
      has to release. */
  datatype Thread = Thread(pc: Pc, cur: NodeId, extra: Option<NodeId>)

  datatype Global = Global(nodes: map<NodeId, Node>, registry: map<Handle, NodeId>, threads: map<Tid, Thread>)

  datatype Op = Start | Stop | Use | Unsubscribe

  datatype Action =
    | Call(op: Op, handle: Handle)
    | CallDelete(handle: Handle)
    | CallNew(handle: Handle, id: NodeId)
    | Advance(ok: bool)     // `ok`: whether a foreign call returns instead of throwing

  const INIT := Global(map[], map[], map[])

  // ----- steps -------------------------------------------------------------

  function ThreadOf(g: Global, t: Tid): Thread {
    if t in g.threads then g.threads[t] else Thread(Idle, 0, None)
  }

  function FirstPc(op: Op): Pc {
    match op
    case Start => StartLoadStopped
    case Stop => StopCheckStarted
    case Use => UseLoadStarted
    case Unsubscribe => UnsubscribeNet
  }

  function AfterStop(caller: Caller): Pc {
    match caller
    case ApiStop => Release
    case FailedStart => FailStoreStopped
    case Destructor => Free
  }

  /** A step that keeps the references of the thread as they are. */
  function Local(pc: Pc, nd: Node, ok: bool): (Pc, Node) {
    match pc
    case StartLoadStopped => (if nd.stopped then Release else StartLoadStarted, nd)
    case StartLoadStarted => (if nd.started then Release else StartNet, nd)
    case StartNet => (if ok then StartStoreStarted else FailStoreStarted, nd.(starts := nd.starts + 1))
    case StartStoreStarted => (Release, nd.(started := true))
    case FailStoreStarted => (StopLoad(FailedStart), nd.(started := true))
    case FailStoreStopped => (Release, nd.(stopped := true))
    case StopCheckStarted => (if nd.started then StopLoad(ApiStop) else Release, nd)
    case StopLoad(c) => (if nd.started then StopExchange(c) else AfterStop(c), nd)
    case StopExchange(c) => (if nd.stopped then AfterStop(c) else StopNet(c), nd.(stopped := true))
    case StopNet(c) => (AfterStop(c), nd.(stops := nd.stops + 1))
    case UseLoadStarted => (if nd.started then UseLoadStopped else Release, nd)
    case UseLoadStopped => (if nd.stopped then Release else UseNet, nd)
    case UseNet => (Release, nd)
    case UnsubscribeNet => (Release, nd)
    case _ => (pc, nd)
  }

  function SetThread(g: Global, t: Tid, th: Thread): Global {
    g.(threads := g.threads[t := th])
  }

  function SetNode(g: Global, n: NodeId, nd: Node): Global {
    g.(nodes := g.nodes[n := nd])
  }

  /** What a thread does once it is done with `cur`. */
  function Done(th: Thread): Thread {
    match th.extra
    case Some(n) => Thread(Release, n, None)
    case None => Thread(Idle, 0, None)
  }

  /** Drops the thread's reference; whoever drops the last one runs the destructor. */
  function ReleaseStep(g: Global, t: Tid, th: Thread): Global
    requires th.cur in g.nodes
  {
    var nd := g.nodes[th.cur];
    var left := if nd.refs > 0 then nd.refs - 1 else 0;
    var g' := SetNode(g, th.cur, nd.(refs := left));
    SetThread(g', t, if left == 0 then th.(pc := StopLoad(Destructor)) else Done(th))
  }

  /** `streamrNodes[handle] = wrapper`: the registry takes a reference of its
      own; the one it held on an overwritten wrapper is left to be dropped. */
  function PublishStep(g: Global, t: Tid, th: Thread, h: Handle): Global
    requires th.cur in g.nodes
  {
    var nd := g.nodes[th.cur];
    var g' := SetNode(g, th.cur, nd.(refs := nd.refs + 1));
    var g'' := g'.(registry := g.registry[h := th.cur]);
    SetThread(g'', t, if h in g.registry then Thread(Release, g.registry[h], Some(th.cur)) else Thread(Release, th.cur, None))
  }

  /** The end of the destructor. */
  function FreeStep(g: Global, t: Tid, th: Thread): Global
    requires th.cur in g.nodes
  {
    SetThread(SetNode(g, th.cur, g.nodes[th.cur].(destroyed := true)), t, Done(th))
  }

  function AdvanceStep(g: Global, t: Tid, ok: bool): Global {
    var th := ThreadOf(g, t);
    if th.pc.Idle? || th.cur !in g.nodes then g
    else
      match th.pc
      case Release => ReleaseStep(g, t, th)
      case Publish(h) => PublishStep(g, t, th, h)
      case Free => FreeStep(g, t, th)
      case _ =>
        var (pc, nd) := Local(th.pc, g.nodes[th.cur], ok);
        SetThread(SetNode(g, th.cur, nd), t, th.(pc := pc))
  }

  /** `findStreamrNode`: copies the shared_ptr under the lock. */
  function LookupStep(g: Global, t: Tid, op: Op, h: Handle): Global {
    if h !in g.registry || g.registry[h] !in g.nodes then g
    else
      var n := g.registry[h];
      SetThread(SetNode(g, n, g.nodes[n].(refs := g.nodes[n].refs + 1)), t, Thread(FirstPc(op), n, None))
  }

  /** `streamrNodeDelete`: moves the registry's reference to the thread. */
  function DeleteStep(g: Global, t: Tid, h: Handle): Global {
    if h !in g.registry then g
    else SetThread(g.(registry := g.registry - {h}), t, Thread(Release, g.registry[h], None))
  }

  function NewStep(g: Global, t: Tid, h: Handle, n: NodeId): Global {
    if n in g.nodes then g
    else SetThread(SetNode(g, n, Node(false, false, 1, 0, 0, false)), t, Thread(Publish(h), n, None))
  }

  function Step(g: Global, t: Tid, a: Action): Global {
    if a.Advance? then AdvanceStep(g, t, a.ok)
    else if !ThreadOf(g, t).pc.Idle? then g
    else
      match a
      case Call(op, h) => LookupStep(g, t, op, h)
      case CallDelete(h) => DeleteStep(g, t, h)
      case CallNew(h, n) => NewStep(g, t, h, n)
      case Advance(_) => g
  }

  /** An interleaving: which thread takes which step, in order. */
  type Run = seq<(Tid, Action)>

  function Exec(g: Global, run: Run): Global {
    if run == [] then g else
      var last := run[|run| - 1];
      Step(Exec(g, run[..|run| - 1]), last.0, last.1)
  }

  // ----- counting ----------------------------------------------------------

  ghost function Where<K, V>(m: map<K, V>, p: V -> bool): set<K> {
    set k | k in m && p(m[k])
  }

  ghost function Count<K, V>(m: map<K, V>, p: V -> bool): nat {
    |Where(m, p)|
  }

  lemma CountUpdate<K, V>(m: map<K, V>, p: V -> bool, k: K, v: V)
    ensures Count(m[k := v], p) + (if k in m && p(m[k]) then 1 else 0) == Count(m, p) + (if p(v) then 1 else 0)
  {
    var rest := Where(m, p) - {k};
    var m' := m[k := v];
    assert Where(m', p) == if p(v) then rest + {k} else rest by {
      forall x ensures x in Where(m', p) <==> x in (if p(v) then rest + {k} else rest) {
        if x != k { assert x in m' <==> x in m; }
      }
    }
    assert Where(m, p) == if k in m && p(m[k]) then rest + {k} else rest;
  }

  lemma CountRemove<K, V>(m: map<K, V>, p: V -> bool, k: K)
    requires k in m
    ensures Count(m - {k}, p) + (if p(m[k]) then 1 else 0) == Count(m, p)
  {
    var rest := Where(m - {k}, p);
    assert Where(m, p) == if p(m[k]) then rest + {k} else rest;
  }

  lemma CountPositive<K, V>(m: map<K, V>, p: V -> bool, k: K)
    requires k in m && p(m[k])
    ensures Count(m, p) >= 1
  {
    assert k in Where(m, p);
  }

  lemma CountZero<K, V>(m: map<K, V>, p: V -> bool)
    requires forall k :: k in m ==> !p(m[k])
    ensures Count(m, p) == 0
  {
    assert Where(m, p) == {};
  }

  lemma CountPair<K, V>(m: map<K, V>, p: V -> bool, k: K, k': K)
    requires k in m && k' in m && k != k' && p(m[k]) && p(m[k'])
    ensures Count(m, p) >= 2
  {
    assert {k, k'} <= Where(m, p);
    assert |{k, k'}| == 2;
    SubsetSize({k, k'}, Where(m, p));
  }

  lemma SubsetSize<T>(a: set<T>, b: set<T>)
    requires a <= b
    ensures |a| <= |b|
  {
    assert b == a + (b - a);
  }

  // ----- invariant ---------------------------------------------------------

  predicate InDestructor(pc: Pc) {
    pc == Free || ((pc.StopLoad? || pc.StopExchange? || pc.StopNet?) && pc.caller == Destructor)
  }

  /** Outside the destructor a thread that is inside a call owns a reference. */
  predicate Holding(pc: Pc) {
    !pc.Idle? && !InDestructor(pc)
  }

  function HoldsCur(n: NodeId): Thread -> bool { (th: Thread) => Holding(th.pc) && th.cur == n }
  function HoldsExtra(n: NodeId): Thread -> bool { (th: Thread) => th.extra == Some(n) }
  function Destroying(n: NodeId): Thread -> bool { (th: Thread) => InDestructor(th.pc) && th.cur == n }
  function Pending(n: NodeId): Thread -> bool { (th: Thread) => th.pc.StopNet? && th.cur == n }
  function MapsTo(n: NodeId): NodeId -> bool { (m: NodeId) => m == n }

  function One(b: bool): nat { if b then 1 else 0 }

  /** Who refers to one wrapper: handles, threads working on it, threads that
      still have to release it; and who is destroying it or about to stop it. */
  datatype Tally = Tally(handles: nat, workers: nat, extras: nat, destroyers: nat, stoppers: nat)

  ghost function TallyOf(g: Global, n: NodeId): Tally {
    Tally(Count(g.registry, MapsTo(n)), Count(g.threads, HoldsCur(n)), Count(g.threads, HoldsExtra(n)),
          Count(g.threads, Destroying(n)), Count(g.threads, Pending(n)))
  }

  /** The reference count is the number of owners; a wrapper without owners is
      destroyed, or one thread is destroying it; and whoever wins the exchange
      invokes the network stop, once. */
  predicate Balanced(nd: Node, c: Tally) {
    && nd.refs == c.handles + c.workers + c.extras
    && c.destroyers == One(nd.refs == 0 && !nd.destroyed)
    && (nd.destroyed ==> nd.refs == 0)
    && nd.stops + c.stoppers == One(nd.stopped)
    && (nd.stopped ==> nd.started)
    && (nd.destroyed ==> nd.stops == One(nd.started))
  }

  ghost predicate NodeOk(g: Global, n: NodeId)
    requires n in g.nodes
  {
    Balanced(g.nodes[n], TallyOf(g, n))
  }

  /** What a thread has established about the flags when it stands at `pc`. */
  predicate PcOk(pc: Pc, nd: Node) {
    match pc
    case StopLoad(c) => c == Destructor || nd.started
    case StopExchange(_) => nd.started
    case StopNet(_) => nd.started && nd.stopped
    case FailStoreStopped => nd.started && nd.stopped
    case UseLoadStopped => nd.started
    case UseNet => nd.started
    case Free => nd.started ==> nd.stopped
    case _ => true
  }

  ghost predicate ThreadOk(g: Global, th: Thread) {
    && (!th.pc.Idle? ==> th.cur in g.nodes && PcOk(th.pc, g.nodes[th.cur]))
    && (th.extra.Some? ==> th.extra.value in g.nodes && !th.pc.Idle? && !th.pc.Publish?)
  }

  ghost predicate Inv(g: Global) {
    && (forall n :: n in g.nodes ==> NodeOk(g, n))
    && (forall t :: t in g.threads ==> ThreadOk(g, g.threads[t]))
    && (forall h :: h in g.registry ==> g.registry[h] in g.nodes)
  }

  // ----- bookkeeping of one thread's move ----------------------------------

  /** The tally of wrapper `m` before and after one thread goes from `th` to `th'`. */
  predicate Moved(th: Thread, th': Thread, m: NodeId, c: Tally, c': Tally) {
    && c'.workers + One(Holding(th.pc) && th.cur == m) == c.workers + One(Holding(th'.pc) && th'.cur == m)
    && c'.extras + One(th.extra == Some(m)) == c.extras + One(th'.extra == Some(m))
    && c'.destroyers + One(InDestructor(th.pc) && th.cur == m) == c.destroyers + One(InDestructor(th'.pc) && th'.cur == m)
    && c'.stoppers + One(th.pc.StopNet? && th.cur == m) == c.stoppers + One(th'.pc.StopNet? && th'.cur == m)
  }

  lemma ThreadMoves(g: Global, g': Global, t: Tid, m: NodeId)
    requires t in g'.threads && g'.threads == g.threads[t := g'.threads[t]]
    ensures Moved(ThreadOf(g, t), g'.threads[t], m, TallyOf(g, m), TallyOf(g', m))
    ensures g'.registry == g.registry ==> TallyOf(g', m).handles == TallyOf(g, m).handles
  {
    CountUpdate(g.threads, HoldsCur(m), t, g'.threads[t]);
    CountUpdate(g.threads, HoldsExtra(m), t, g'.threads[t]);
    CountUpdate(g.threads, Destroying(m), t, g'.threads[t]);
    CountUpdate(g.threads, Pending(m), t, g'.threads[t]);
  }

  lemma HandleMoves(g: Global, g': Global, h: Handle, n: NodeId, m: NodeId)
    requires g'.registry == g.registry[h := n]
    ensures TallyOf(g', m).handles + One(h in g.registry && g.registry[h] == m) == TallyOf(g, m).handles + One(m == n)
  {
    CountUpdate(g.registry, MapsTo(m), h, n);
  }

  lemma HandleGoes(g: Global, g': Global, h: Handle, m: NodeId)
    requires h in g.registry && g'.registry == g.registry - {h}
    ensures TallyOf(g', m).handles + One(g.registry[h] == m) == TallyOf(g, m).handles
  {
    CountRemove(g.registry, MapsTo(m), h);
  }

  /** A thread outside the destructor keeps its wrapper owned. */
  lemma HolderKeepsAlive(g: Global, t: Tid)
    requires Inv(g) && t in g.threads && Holding(g.threads[t].pc)
    ensures g.threads[t].cur in g.nodes
    ensures var nd := g.nodes[g.threads[t].cur]; nd.refs >= 1 && !nd.destroyed
  {
    var n := g.threads[t].cur;
    assert ThreadOk(g, g.threads[t]) && NodeOk(g, n);
    CountPositive(g.threads, HoldsCur(n), t);
  }

  lemma DestroyerKeepsAlive(g: Global, t: Tid)
    requires Inv(g) && t in g.threads && InDestructor(g.threads[t].pc)
    ensures g.threads[t].cur in g.nodes
    ensures var nd := g.nodes[g.threads[t].cur]; nd.refs == 0 && !nd.destroyed
  {
    var n := g.threads[t].cur;
    assert ThreadOk(g, g.threads[t]) && NodeOk(g, n);
    CountPositive(g.threads, Destroying(n), t);
  }

  /** While one thread works on a wrapper, no other is inside its destructor. */
  lemma NoOtherDestroyer(g: Global, t: Tid, t': Tid)
    requires Inv(g) && t in g.threads && t' in g.threads && t != t'
    requires !g.threads[t].pc.Idle? && g.threads[t'].cur == g.threads[t].cur
    ensures !InDestructor(g.threads[t'].pc)
  {
    var n := g.threads[t].cur;
    if Holding(g.threads[t].pc) {
      HolderKeepsAlive(g, t);
      if InDestructor(g.threads[t'].pc) { DestroyerKeepsAlive(g, t'); }
    } else if InDestructor(g.threads[t'].pc) {
      DestroyerKeepsAlive(g, t);
      assert NodeOk(g, n);
      CountPair(g.threads, Destroying(n), t, t');
    }
  }

  // ----- steps that keep references ----------------------------------------

  predicate IsLocal(pc: Pc) {
    !pc.Idle? && !pc.Release? && !pc.Publish? && !pc.Free?
  }

  lemma LocalFacts(pc: Pc, nd: Node, ok: bool)
    requires IsLocal(pc) && PcOk(pc, nd) && (nd.stopped ==> nd.started)
    ensures var (pc', nd') := Local(pc, nd, ok);
      && nd'.refs == nd.refs && nd'.destroyed == nd.destroyed
      && (nd.started ==> nd'.started) && (nd.stopped ==> nd'.stopped)
      && !pc'.Idle? && !pc'.Publish? && InDestructor(pc') == InDestructor(pc)
      && PcOk(pc', nd') && (nd'.stopped ==> nd'.started)
      && nd'.stops + One(pc'.StopNet?) + One(nd.stopped) == nd.stops + One(pc.StopNet?) + One(nd'.stopped)
  {
  }

  lemma LocalBalanced(th: Thread, nd: Node, ok: bool, c: Tally, c': Tally)
    requires IsLocal(th.pc) && PcOk(th.pc, nd) && Balanced(nd, c) && !nd.destroyed
    requires c'.handles == c.handles
    requires Moved(th, th.(pc := Local(th.pc, nd, ok).0), th.cur, c, c')
    ensures Balanced(Local(th.pc, nd, ok).1, c')
  {
    LocalFacts(th.pc, nd, ok);
  }

  lemma CurIsAlive(g: Global, t: Tid)
    requires Inv(g) && t in g.threads && !g.threads[t].pc.Idle?
    ensures g.threads[t].cur in g.nodes && !g.nodes[g.threads[t].cur].destroyed
    ensures PcOk(g.threads[t].pc, g.nodes[g.threads[t].cur])
  {
    assert ThreadOk(g, g.threads[t]);
    if Holding(g.threads[t].pc) { HolderKeepsAlive(g, t); } else { DestroyerKeepsAlive(g, t); }
  }

  lemma LocalStepThread(g: Global, t: Tid, ok: bool, t': Tid)
    requires Inv(g) && t in g.threads && IsLocal(g.threads[t].pc) && t' in g.threads && t' != t
    ensures ThreadOk(AdvanceStep(g, t, ok), g.threads[t'])
  {
    hide Local, Balanced, TallyOf;
    var th := g.threads[t];
    CurIsAlive(g, t);
    assert NodeOk(g, th.cur) && ThreadOk(g, g.threads[t']);
    BalancedFacts(g.nodes[th.cur], TallyOf(g, th.cur));
    LocalFacts(th.pc, g.nodes[th.cur], ok);
    if g.threads[t'].cur == th.cur {
      NoOtherDestroyer(g, t, t');
    }
  }

  lemma LocalStepInv(g: Global, t: Tid, ok: bool)
    requires Inv(g) && t in g.threads && IsLocal(g.threads[t].pc)
    ensures Inv(AdvanceStep(g, t, ok))
  {
    hide Local, PcOk, Balanced, TallyOf, Moved;
    var th := g.threads[t];
    var n := th.cur;
    CurIsAlive(g, t);
    assert NodeOk(g, n);
    BalancedFacts(g.nodes[n], TallyOf(g, n));
    LocalFacts(th.pc, g.nodes[n], ok);
    var (pc, nd) := Local(th.pc, g.nodes[n], ok);
    var g' := SetThread(SetNode(g, n, nd), t, th.(pc := pc));
    assert g' == AdvanceStep(g, t, ok);
    forall m | m in g'.nodes ensures NodeOk(g', m) {
      assert NodeOk(g, m);
      ThreadMoves(g, g', t, m);
      if m == n {
        LocalBalanced(th, g.nodes[n], ok, TallyOf(g, n), TallyOf(g', n));
      } else {
        Untouched(th, th.(pc := pc), m, TallyOf(g, m), TallyOf(g', m));
      }
    }
    forall t' | t' in g'.threads ensures ThreadOk(g', g'.threads[t']) {
      if t' != t { LocalStepThread(g, t, ok, t'); } else { assert ThreadOk(g, th); }
    }
  }

  lemma BalancedFacts(nd: Node, c: Tally)
    requires Balanced(nd, c)
    ensures nd.stopped ==> nd.started
  {
  }

  /** A move of a thread that concerns other wrappers leaves this one's tally alone. */
  lemma Untouched(th: Thread, th': Thread, m: NodeId, c: Tally, c': Tally)
    requires Moved(th, th', m, c, c') && c'.handles == c.handles
    requires (th.cur == th'.cur && Holding(th.pc) == Holding(th'.pc) && InDestructor(th.pc) == InDestructor(th'.pc) && th.cur != m)
    requires th.extra == th'.extra
    ensures c' == c
  {
  }

  // ----- steps that move references ----------------------------------------

  /** Threads other than `t` are unaffected when flags stay as they are. */
  lemma OthersKept(g: Global, g': Global, t: Tid, th': Thread)
    requires Inv(g) && g'.threads == g.threads[t := th'] && ThreadOk(g', th')
    requires forall n :: n in g.nodes ==>
      n in g'.nodes && g'.nodes[n].started == g.nodes[n].started && g'.nodes[n].stopped == g.nodes[n].stopped
    ensures forall x :: x in g'.threads ==> ThreadOk(g', g'.threads[x])
  {
    hide NodeOk;
    forall x | x in g'.threads ensures ThreadOk(g', g'.threads[x]) {
      if x != t { assert ThreadOk(g, g.threads[x]); }
    }
  }

  /** A step that changes one wrapper's count and one thread, with the tally of
      every wrapper accounted for, keeps the invariant. */
  lemma ReferenceStepInv(g: Global, g': Global, t: Tid)
    requires Inv(g) && t in g'.threads && g'.threads == g.threads[t := g'.threads[t]] && ThreadOk(g', g'.threads[t])
    requires forall n :: n in g.nodes ==>
      n in g'.nodes && g'.nodes[n].started == g.nodes[n].started && g'.nodes[n].stopped == g.nodes[n].stopped
    requires forall h :: h in g'.registry ==> g'.registry[h] in g'.nodes
    requires forall m :: m in g'.nodes ==> NodeOk(g', m)
    ensures Inv(g')
  {
    hide NodeOk;
    OthersKept(g, g', t, g'.threads[t]);
  }

  lemma ReleaseBalanced(th: Thread, th': Thread, left: nat, m: NodeId, nd: Node, nd': Node, c: Tally, c': Tally)
    requires th.pc.Release? && Balanced(nd, c) && Moved(th, th', m, c, c') && c'.handles == c.handles
    requires th' == if left == 0 then th.(pc := StopLoad(Destructor)) else Done(th)
    requires if m == th.cur then nd.refs == left + 1 && nd' == nd.(refs := left) else nd' == nd
    ensures Balanced(nd', c')
  {
  }

  lemma ReleaseInv(g: Global, t: Tid)
    requires Inv(g) && t in g.threads && g.threads[t].pc.Release?
    ensures g.threads[t].cur in g.nodes && Inv(ReleaseStep(g, t, g.threads[t]))
  {
    hide Balanced, TallyOf, Moved;
    var th := g.threads[t];
    HolderKeepsAlive(g, t);
    assert ThreadOk(g, th);
    var g' := ReleaseStep(g, t, th);
    forall m | m in g'.nodes ensures NodeOk(g', m) {
      assert NodeOk(g, m);
      ThreadMoves(g, g', t, m);
      ReleaseBalanced(th, g'.threads[t], g.nodes[th.cur].refs - 1, m, g.nodes[m], g'.nodes[m], TallyOf(g, m), TallyOf(g', m));
    }
    ReferenceStepInv(g, g', t);
  }

  lemma PublishBalanced(th: Thread, th': Thread, before: Option<NodeId>, m: NodeId, nd: Node, nd': Node, c: Tally, c': Tally)
    requires th.pc.Publish? && th.extra.None? && Balanced(nd, c) && Moved(th, th', m, c, c')
    requires c'.handles + One(before == Some(m)) == c.handles + One(m == th.cur)
    requires th' == if before.Some? then Thread(Release, before.value, Some(th.cur)) else Thread(Release, th.cur, None)
    requires if m == th.cur then nd.refs >= 1 && nd' == nd.(refs := nd.refs + 1) else nd' == nd
    ensures Balanced(nd', c')
  {
  }

  lemma PublishInv(g: Global, t: Tid)
    requires Inv(g) && t in g.threads && g.threads[t].pc.Publish?
    ensures g.threads[t].cur in g.nodes && Inv(PublishStep(g, t, g.threads[t], g.threads[t].pc.handle))
  {
    hide Balanced, TallyOf, Moved;
    var th := g.threads[t];
    var h := th.pc.handle;
    HolderKeepsAlive(g, t);
    assert ThreadOk(g, th);
    var g' := PublishStep(g, t, th, h);
    var before := if h in g.registry then Some(g.registry[h]) else None;
    forall m | m in g'.nodes ensures NodeOk(g', m) {
      assert NodeOk(g, m);
      ThreadMoves(g, g', t, m);
      HandleMoves(g, g', h, th.cur, m);
      PublishBalanced(th, g'.threads[t], before, m, g.nodes[m], g'.nodes[m], TallyOf(g, m), TallyOf(g', m));
    }
    ReferenceStepInv(g, g', t);
  }

  lemma FreeBalanced(th: Thread, th': Thread, m: NodeId, nd: Node, nd': Node, c: Tally, c': Tally)
    requires th.pc.Free? && Balanced(nd, c) && Moved(th, th', m, c, c') && c'.handles == c.handles && th' == Done(th)
    requires if m == th.cur then !nd.destroyed && nd.refs == 0 && PcOk(Free, nd) && c.stoppers == 0 && nd' == nd.(destroyed := true) else nd' == nd
    ensures Balanced(nd', c')
  {
  }

  lemma FreeInv(g: Global, t: Tid)
    requires Inv(g) && t in g.threads && g.threads[t].pc.Free?
    ensures g.threads[t].cur in g.nodes && Inv(FreeStep(g, t, g.threads[t]))
  {
    hide Balanced, TallyOf, Moved;
    var th := g.threads[t];
    DestroyerKeepsAlive(g, t);
    assert ThreadOk(g, th);
    NothingPending(g, t);
    var g' := FreeStep(g, t, th);
    forall m | m in g'.nodes ensures NodeOk(g', m) {
      assert NodeOk(g, m);
      ThreadMoves(g, g', t, m);
      FreeBalanced(th, g'.threads[t], m, g.nodes[m], g'.nodes[m], TallyOf(g, m), TallyOf(g', m));
    }
    ReferenceStepInv(g, g', t);
  }

  /** When the destructor is about to finish, nobody is about to stop the node. */
  lemma NothingPending(g: Global, t: Tid)
    requires Inv(g) && t in g.threads && g.threads[t].pc.Free?
    ensures TallyOf(g, g.threads[t].cur).stoppers == 0
  {
    hide NodeOk, ThreadOk, Count;
    var n := g.threads[t].cur;
    forall x | x in g.threads ensures !Pending(n)(g.threads[x]) {
      if x != t && g.threads[x].cur == n {
        NoOtherDestroyer(g, t, x);
        if Holding(g.threads[x].pc) {
          NoOtherDestroyer(g, x, t);
        }
      }
    }
    CountZero(g.threads, Pending(n));
  }

  lemma LookupBalanced(th: Thread, th': Thread, m: NodeId, nd: Node, nd': Node, c: Tally, c': Tally)
    requires th.pc.Idle? && th.extra.None? && Balanced(nd, c) && Moved(th, th', m, c, c') && c'.handles == c.handles
    requires th'.extra.None? && Holding(th'.pc) && !th'.pc.StopNet?
    requires if m == th'.cur then nd.refs >= 1 && nd' == nd.(refs := nd.refs + 1) else nd' == nd
    ensures Balanced(nd', c')
  {
  }

  /** An idle thread owes nothing. */
  lemma IdleOwesNothing(g: Global, t: Tid)
    requires Inv(g) && ThreadOf(g, t).pc.Idle?
    ensures ThreadOf(g, t).extra.None?
  {
    if t in g.threads { assert ThreadOk(g, g.threads[t]); }
  }

  lemma LookupInv(g: Global, t: Tid, op: Op, h: Handle)
    requires Inv(g) && ThreadOf(g, t).pc.Idle?
    ensures Inv(LookupStep(g, t, op, h))
  {
    hide Balanced, TallyOf, Moved;
    IdleOwesNothing(g, t);
    if h in g.registry {
      var n := g.registry[h];
      RegisteredIsOwned(g, h);
      var g' := LookupStep(g, t, op, h);
      forall m | m in g'.nodes ensures NodeOk(g', m) {
        assert NodeOk(g, m);
        ThreadMoves(g, g', t, m);
        LookupBalanced(ThreadOf(g, t), g'.threads[t], m, g.nodes[m], g'.nodes[m], TallyOf(g, m), TallyOf(g', m));
      }
      ReferenceStepInv(g, g', t);
    }
  }

  lemma RegisteredIsOwned(g: Global, h: Handle)
    requires Inv(g) && h in g.registry
    ensures g.registry[h] in g.nodes && g.nodes[g.registry[h]].refs >= 1 && !g.nodes[g.registry[h]].destroyed
  {
    assert NodeOk(g, g.registry[h]);
    CountPositive(g.registry, MapsTo(g.registry[h]), h);
  }

  lemma DeleteBalanced(th: Thread, th': Thread, m: NodeId, nd: Node, c: Tally, c': Tally)
    requires th.pc.Idle? && th.extra.None? && Balanced(nd, c) && Moved(th, th', m, c, c')
    requires c'.handles + One(m == th'.cur) == c.handles && th'.extra.None? && th'.pc.Release?
    ensures Balanced(nd, c')
  {
  }

  lemma DeleteInv(g: Global, t: Tid, h: Handle)
    requires Inv(g) && ThreadOf(g, t).pc.Idle?
    ensures Inv(DeleteStep(g, t, h))
  {
    hide Balanced, TallyOf, Moved;
    IdleOwesNothing(g, t);
    if h in g.registry {
      var g' := DeleteStep(g, t, h);
      forall m | m in g'.nodes ensures NodeOk(g', m) {
        assert NodeOk(g, m);
        ThreadMoves(g, g', t, m);
        HandleGoes(g, g', h, m);
        DeleteBalanced(ThreadOf(g, t), g'.threads[t], m, g.nodes[m], TallyOf(g, m), TallyOf(g', m));
      }
      ReferenceStepInv(g, g', t);
    }
  }

  lemma Unknown(g: Global, n: NodeId)
    requires Inv(g) && n !in g.nodes
    ensures TallyOf(g, n) == Tally(0, 0, 0, 0, 0)
  {
    CountZero(g.registry, MapsTo(n));
    assert forall t :: t in g.threads ==> ThreadOk(g, g.threads[t]);
    CountZero(g.threads, HoldsCur(n));
    CountZero(g.threads, HoldsExtra(n));
    CountZero(g.threads, Destroying(n));
    CountZero(g.threads, Pending(n));
  }

  lemma NewBalanced(th: Thread, th': Thread, m: NodeId, nd: Node, c: Tally, c': Tally)
    requires th.pc.Idle? && th.extra.None? && Moved(th, th', m, c, c') && c'.handles == c.handles
    requires th'.pc.Publish? && th'.extra.None?
    requires if m == th'.cur then c == Tally(0, 0, 0, 0, 0) && nd == Node(false, false, 1, 0, 0, false) else Balanced(nd, c)
    ensures Balanced(nd, c')
  {
  }

  lemma NewInv(g: Global, t: Tid, h: Handle, n: NodeId)
    requires Inv(g) && ThreadOf(g, t).pc.Idle?
    ensures Inv(NewStep(g, t, h, n))
  {
    hide Balanced, TallyOf, Moved;
    IdleOwesNothing(g, t);
    if n !in g.nodes {
      var g' := NewStep(g, t, h, n);
      Unknown(g, n);
      forall m | m in g'.nodes ensures NodeOk(g', m) {
        assert m != n ==> NodeOk(g, m);
        ThreadMoves(g, g', t, m);
        NewBalanced(ThreadOf(g, t), g'.threads[t], m, g'.nodes[m], TallyOf(g, m), TallyOf(g', m));
      }
      ReferenceStepInv(g, g', t);
    }
  }

  lemma StepInv(g: Global, t: Tid, a: Action)
    requires Inv(g)
    ensures Inv(Step(g, t, a))
  {
    hide NodeOk, ThreadOk;
    if t in g.threads { assert ThreadOk(g, g.threads[t]); }
    match a
    case Advance(ok) =>
      var th := ThreadOf(g, t);
      if t in g.threads && !th.pc.Idle? {
        if th.pc.Release? { ReleaseInv(g, t); }
        else if th.pc.Publish? { PublishInv(g, t); }
        else if th.pc.Free? { FreeInv(g, t); }
        else { LocalStepInv(g, t, ok); }
      }
    case Call(op, h) => if ThreadOf(g, t).pc.Idle? { LookupInv(g, t, op, h); }
    case CallDelete(h) => if ThreadOf(g, t).pc.Idle? { DeleteInv(g, t, h); }
    case CallNew(h, n) => if ThreadOf(g, t).pc.Idle? { NewInv(g, t, h, n); }
  }

  lemma {:induction false} ExecInv(run: Run)
    ensures Inv(Exec(INIT, run))
  {
    hide NodeOk, ThreadOk, Step;
    if run != [] {
      var last := run[|run| - 1];
      ExecInv(run[..|run| - 1]);
      StepInv(Exec(INIT, run[..|run| - 1]), last.0, last.1);
    }
  }

  // ----- what every interleaving keeps -------------------------------------

  /** In every interleaving the network stop is invoked at most once per node,
      never before `started` is set, and exactly once for a started node by the
      time its wrapper has been destroyed. */
  lemma StopInvokedAtMostOnce(run: Run, n: NodeId)
    requires n in Exec(INIT, run).nodes
    ensures var nd := Exec(INIT, run).nodes[n];
      && nd.stops <= 1
      && (nd.stops == 1 ==> nd.started && nd.stopped)
      && (nd.destroyed ==> nd.stops == One(nd.started))
  {
    ExecInv(run);
    assert NodeOk(Exec(INIT, run), n);
  }

  /** No step touches a destroyed wrapper: whoever is inside a call, still owes
      a release, or can be found through the registry, finds a live one. */
  lemma NoUseAfterDestroy(run: Run)
    ensures var g := Exec(INIT, run);
      && (forall t :: t in g.threads && !g.threads[t].pc.Idle? ==>
            g.threads[t].cur in g.nodes && !g.nodes[g.threads[t].cur].destroyed)
      && (forall t :: t in g.threads && g.threads[t].extra.Some? ==>
            g.threads[t].extra.value in g.nodes && !g.nodes[g.threads[t].extra.value].destroyed)
      && (forall h :: h in g.registry ==> g.registry[h] in g.nodes && !g.nodes[g.registry[h]].destroyed)
  {
    var g := Exec(INIT, run);
    ExecInv(run);
    forall t | t in g.threads && !g.threads[t].pc.Idle?
      ensures g.threads[t].cur in g.nodes && !g.nodes[g.threads[t].cur].destroyed
    {
      CurIsAlive(g, t);
    }
    forall t | t in g.threads && g.threads[t].extra.Some?
      ensures g.threads[t].extra.value in g.nodes && !g.nodes[g.threads[t].extra.value].destroyed
    {
      assert ThreadOk(g, g.threads[t]);
      assert NodeOk(g, g.threads[t].extra.value);
      CountPositive(g.threads, HoldsExtra(g.threads[t].extra.value), t);
    }
    forall h | h in g.registry ensures g.registry[h] in g.nodes && !g.nodes[g.registry[h]].destroyed {
      RegisteredIsOwned(g, h);
    }
  }

  /** Once all calls have returned, a wrapper is destroyed exactly when no handle
      names it any more, and then it was stopped exactly if it was started. */
  lemma QuietMeansNoLeak(run: Run, n: NodeId)
    requires n in Exec(INIT, run).nodes
    requires forall t :: t in Exec(INIT, run).threads ==> Exec(INIT, run).threads[t].pc.Idle?
    ensures var g := Exec(INIT, run);
      && (g.nodes[n].destroyed <==> forall h :: h in g.registry ==> g.registry[h] != n)
      && (g.nodes[n].destroyed ==> g.nodes[n].stops == One(g.nodes[n].started))
  {
    var g := Exec(INIT, run);
    ExecInv(run);
    assert NodeOk(g, n);
    NobodyInside(g, n);
    if h :| h in g.registry && g.registry[h] == n {
      RegisteredIsOwned(g, h);
    } else {
      CountZero(g.registry, MapsTo(n));
    }
  }

  lemma NobodyInside(g: Global, n: NodeId)
    requires Inv(g) && forall t :: t in g.threads ==> g.threads[t].pc.Idle?
    ensures TallyOf(g, n) == Tally(TallyOf(g, n).handles, 0, 0, 0, 0)
  {
    hide NodeOk;
    assert forall t :: t in g.threads ==> ThreadOk(g, g.threads[t]);
    CountZero(g.threads, HoldsCur(n));
    CountZero(g.threads, HoldsExtra(n));
    CountZero(g.threads, Destroying(n));
    CountZero(g.threads, Pending(n));
  }

  // ----- starting ----------------------------------------------------------

  /** Between finding `started` false and storing true into it. */
  predicate InWindow(pc: Pc) {
    pc.StartNet? || pc.StartStoreStarted? || pc.FailStoreStarted?
  }

  function Starting(n: NodeId): Thread -> bool { (th: Thread) => InWindow(th.pc) && th.cur == n }
  function Storing(n: NodeId): Thread -> bool { (th: Thread) => InWindow(th.pc) && !th.pc.StartNet? && th.cur == n }

  /** No two start calls on the same node are in the window together. */
  ghost predicate StartsSerialized(g: Global) {
    forall n :: n in g.nodes ==> Count(g.threads, Starting(n)) <= 1
  }

  ghost predicate StartsOk(g: Global, n: NodeId)
    requires n in g.nodes
  {
    && g.nodes[n].starts == One(g.nodes[n].started) + Count(g.threads, Storing(n))
    && (Count(g.threads, Starting(n)) > 0 ==> !g.nodes[n].started)
  }

  /** Steps other than those of the window neither start nor mark a node. */
  lemma OutsideWindow(g: Global, g': Global, t: Tid, m: NodeId)
    requires t in g'.threads && g'.threads == g.threads[t := g'.threads[t]]
    requires !InWindow(ThreadOf(g, t).pc) && !InWindow(g'.threads[t].pc)
    requires m in g'.nodes && (m in g.nodes ==> StartsOk(g, m))
    requires m in g.nodes ==> g'.nodes[m].started == g.nodes[m].started && g'.nodes[m].starts == g.nodes[m].starts
    requires m !in g.nodes ==> !g'.nodes[m].started && g'.nodes[m].starts == 0 && Count(g.threads, Storing(m)) == 0
    ensures StartsOk(g', m)
  {
    CountUpdate(g.threads, Starting(m), t, g'.threads[t]);
    CountUpdate(g.threads, Storing(m), t, g'.threads[t]);
  }

  lemma WindowStep(g: Global, t: Tid, ok: bool, m: NodeId)
    requires Inv(g) && t in g.threads && IsLocal(g.threads[t].pc) && StartsSerialized(g)
    requires m in g.nodes && StartsOk(g, m)
    ensures m in AdvanceStep(g, t, ok).nodes && StartsOk(AdvanceStep(g, t, ok), m)
  {
    hide NodeOk, Count;
    assert ThreadOk(g, g.threads[t]);
    var g' := AdvanceStep(g, t, ok);
    CountUpdate(g.threads, Starting(m), t, g'.threads[t]);
    CountUpdate(g.threads, Storing(m), t, g'.threads[t]);
    if g.threads[t].cur == m && InWindow(g.threads[t].pc) {
      CountPositive(g.threads, Starting(m), t);
      StoringIsStarting(g, m);
    }
  }

  lemma StoringIsStarting(g: Global, m: NodeId)
    ensures Count(g.threads, Storing(m)) <= Count(g.threads, Starting(m))
  {
    SubsetSize(Where(g.threads, Storing(m)), Where(g.threads, Starting(m)));
  }

  lemma StartsStep(g: Global, t: Tid, a: Action)
    requires Inv(g) && StartsSerialized(g) && forall n :: n in g.nodes ==> StartsOk(g, n)
    ensures forall n :: n in Step(g, t, a).nodes ==> StartsOk(Step(g, t, a), n)
  {
    hide NodeOk, StartsSerialized, StartsOk;
    var g' := Step(g, t, a);
    var th := ThreadOf(g, t);
    if t in g.threads { assert ThreadOk(g, g.threads[t]); }
    forall m | m in g'.nodes ensures StartsOk(g', m) {
      if g' != g {
        if a.Advance? && IsLocal(th.pc) {
          WindowStep(g, t, a.ok, m);
        } else {
          if m !in g.nodes { NobodyStores(g, m); }
          OutsideWindow(g, g', t, m);
        }
      }
    }
  }

  lemma NobodyStores(g: Global, m: NodeId)
    requires Inv(g) && m !in g.nodes
    ensures Count(g.threads, Storing(m)) == 0
  {
    hide NodeOk;
    assert forall t :: t in g.threads ==> ThreadOk(g, g.threads[t]);
    CountZero(g.threads, Storing(m));
  }

  /** If start calls on a node never overlap between the check and the store,
      the network start is invoked at most once. */
  lemma {:induction false} StartInvokedAtMostOnce(run: Run)
    requires forall k :: 0 <= k <= |run| ==> StartsSerialized(Exec(INIT, run[..k]))
    ensures forall n :: n in Exec(INIT, run).nodes ==> StartsOk(Exec(INIT, run), n) && Exec(INIT, run).nodes[n].starts <= 1
  {
    assert run[..|run|] == run;
    if run != [] {
      var last := run[|run| - 1];
      var before := run[..|run| - 1];
      forall k | 0 <= k <= |before| ensures StartsSerialized(Exec(INIT, before[..k])) {
        assert before[..k] == run[..k];
      }
      StartInvokedAtMostOnce(before);
      ExecInv(before);
      StartsStep(Exec(INIT, before), last.0, last.1);
    }
    forall n | n in Exec(INIT, run).nodes ensures Exec(INIT, run).nodes[n].starts <= 1 {
      StoringIsStarting(Exec(INIT, run), n);
    }
  }

  /** Every thread about to store `started` has already invoked the network start. */
  ghost predicate StoredOk(g: Global, n: NodeId)
    requires n in g.nodes
  {
    Count(g.threads, Storing(n)) <= g.nodes[n].starts
  }

  lemma StoredLocal(g: Global, t: Tid, ok: bool, m: NodeId)
    requires Inv(g) && t in g.threads && IsLocal(g.threads[t].pc) && m in g.nodes
    requires StoredOk(g, m)
    ensures m in AdvanceStep(g, t, ok).nodes && StoredOk(AdvanceStep(g, t, ok), m)
  {
    hide NodeOk, Count;
    assert ThreadOk(g, g.threads[t]);
    CountUpdate(g.threads, Storing(m), t, AdvanceStep(g, t, ok).threads[t]);
  }

  lemma StoredStep(g: Global, t: Tid, a: Action)
    requires Inv(g) && forall n :: n in g.nodes ==> StoredOk(g, n)
    ensures forall n :: n in Step(g, t, a).nodes ==> StoredOk(Step(g, t, a), n)
  {
    hide NodeOk, StoredOk;
    var g' := Step(g, t, a);
    var th := ThreadOf(g, t);
    if t in g.threads { assert ThreadOk(g, g.threads[t]); }
    forall m | m in g'.nodes ensures StoredOk(g', m) {
      if g' != g {
        if a.Advance? && IsLocal(th.pc) {
          StoredLocal(g, t, a.ok, m);
        } else {
          if m !in g.nodes { NobodyStores(g, m); }
          StoredOutside(g, g', t, m);
        }
      }
    }
  }

  lemma StoredOutside(g: Global, g': Global, t: Tid, m: NodeId)
    requires t in g'.threads && g'.threads == g.threads[t := g'.threads[t]]
    requires !InWindow(ThreadOf(g, t).pc) && !InWindow(g'.threads[t].pc)
    requires m in g'.nodes && (m in g.nodes ==> StoredOk(g, m) && g'.nodes[m].starts == g.nodes[m].starts)
    requires m !in g.nodes ==> Count(g.threads, Storing(m)) == 0
    ensures StoredOk(g', m)
  {
    CountUpdate(g.threads, Storing(m), t, g'.threads[t]);
  }

  lemma {:induction false} ExecStored(run: Run)
    ensures forall n :: n in Exec(INIT, run).nodes ==> StoredOk(Exec(INIT, run), n)
  {
    if run != [] {
      var last := run[|run| - 1];
      ExecStored(run[..|run| - 1]);
      ExecInv(run[..|run| - 1]);
      StoredStep(Exec(INIT, run[..|run| - 1]), last.0, last.1);
    }
  }

  /** Thread `t` in the window can be brought to the store, leaving other threads alone. */
  lemma ReachStore(run: Run, t: Tid, n: NodeId) returns (longer: Run)
    requires t in Exec(INIT, run).threads && Starting(n)(Exec(INIT, run).threads[t])
    ensures run <= longer
    ensures var g, g' := Exec(INIT, run), Exec(INIT, longer);
      && t in g'.threads && Storing(n)(g'.threads[t])
      && (forall x :: x in g.threads && x != t ==> x in g'.threads && g'.threads[x] == g.threads[x])
  {
    hide NodeOk;
    var g := Exec(INIT, run);
    ExecInv(run);
    assert ThreadOk(g, g.threads[t]);
    if g.threads[t].pc.StartNet? {
      longer := run + [(t, Advance(true))];
      assert longer[..|longer| - 1] == run;
    } else {
      longer := run;
    }
  }

  /** Conversely, once two start calls overlap in the window, the schedule can
      go on so that the network start is invoked twice. */
  lemma OverlapAllowsSecondStart(run: Run, n: NodeId) returns (longer: Run)
    requires n in Exec(INIT, run).nodes && Count(Exec(INIT, run).threads, Starting(n)) >= 2
    ensures run <= longer && n in Exec(INIT, longer).nodes && Exec(INIT, longer).nodes[n].starts >= 2
  {
    var g := Exec(INIT, run);
    var s := Where(g.threads, Starting(n));
    var t :| t in s;
    assert |s - {t}| >= 1;
    var t' :| t' in s - {t};
    var mid := ReachStore(run, t, n);
    longer := ReachStore(mid, t', n);
    var g' := Exec(INIT, longer);
    CountPair(g'.threads, Storing(n), t, t');
    ExecInv(longer);
    assert ThreadOk(g', g'.threads[t]);
    ExecStored(longer);
  }

  const GO := Advance(true)
  const FRESH := Node(false, false, 1, 0, 0, false)
  const CREATED := Global(map[0 := FRESH], map[7 := 0], map[1 := Thread(Idle, 0, None)])
  const OVERLAPPED := Global(map[0 := FRESH.(refs := 3)], map[7 := 0],
                             map[1 := Thread(StartNet, 0, None), 2 := Thread(StartNet, 0, None)])

  lemma TwoStarters()
    ensures var h2 := Step(Step(CREATED, 1, Call(Start, 7)), 2, Call(Start, 7));
            Step(Step(Step(Step(h2, 1, GO), 1, GO), 2, GO), 2, GO) == OVERLAPPED
  {
    var h2 := Step(Step(CREATED, 1, Call(Start, 7)), 2, Call(Start, 7));
    assert h2 == OVERLAPPED.(threads := map[1 := Thread(StartLoadStopped, 0, None), 2 := Thread(StartLoadStopped, 0, None)]);
    var h4 := Step(Step(h2, 1, GO), 1, GO);
    assert h4 == OVERLAPPED.(threads := map[1 := Thread(StartNet, 0, None), 2 := Thread(StartLoadStopped, 0, None)]);
  }

  /** Such an overlap does happen: two threads start the same fresh node. */
  lemma OverlapHappens()
    ensures 0 in Exec(INIT, OVERLAP).nodes && Count(Exec(INIT, OVERLAP).threads, Starting(0)) >= 2
  {
    assert Exec(INIT, OVERLAP) == OVERLAPPED by {
      hide Step;
      Created();
      assert OVERLAP[..3] == CREATION && OVERLAP[..9] == OVERLAP;
      ExecNext(OVERLAP, 3);
      ExecNext(OVERLAP, 4);
      ExecNext(OVERLAP, 5);
      ExecNext(OVERLAP, 6);
      ExecNext(OVERLAP, 7);
      ExecNext(OVERLAP, 8);
      TwoStarters();
    }
    CountPair(OVERLAPPED.threads, Starting(0), 1, 2);
  }

  /** One thread creates node 0 under handle 7. */
  const CREATION: Run := [(1, CallNew(7, 0)), (1, Advance(true)), (1, Advance(true))]

  const OVERLAP: Run :=
    [(1, CallNew(7, 0)), (1, Advance(true)), (1, Advance(true)),
     (1, Call(Start, 7)), (2, Call(Start, 7)),
     (1, Advance(true)), (1, Advance(true)), (2, Advance(true)), (2, Advance(true))]

  lemma ExecNext(run: Run, k: nat)
    requires k < |run|
    ensures Exec(INIT, run[..k + 1]) == Step(Exec(INIT, run[..k]), run[k].0, run[k].1)
  {
    assert run[..k + 1][..k] == run[..k];
  }

  lemma CreationSteps()
    ensures Step(Step(Step(INIT, 1, CallNew(7, 0)), 1, GO), 1, GO) == CREATED
  {
    var g1 := Step(INIT, 1, CallNew(7, 0));
    assert g1 == Global(map[0 := FRESH], map[], map[1 := Thread(Publish(7), 0, None)]);
    assert Step(g1, 1, GO) == Global(map[0 := FRESH.(refs := 2)], map[7 := 0], map[1 := Thread(Release, 0, None)]);
  }

  lemma Created()
    ensures Exec(INIT, CREATION) == CREATED
  {
    hide Step;
    assert CREATION[..0] == [] && CREATION[..3] == CREATION;
    ExecNext(CREATION, 0);
    ExecNext(CREATION, 1);
    ExecNext(CREATION, 2);
    CreationSteps();
  }
}
