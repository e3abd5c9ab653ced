/** The strongly-connected-component pass of check-include-dag.py, as a class
    whose fields are the script's mutable variables. */
module Tarjan {
  import opened HeaderGraph

  /** The value of all mutable variables at one moment. */
  datatype State = State(
    counter: nat,
    index: map<Header, nat>,
    lowlink: map<Header, nat>,
    onStack: map<Header, bool>,
    stack: seq<Header>,
    sccs: seq<seq<Header>>)

  // ----- invariant of the whole pass ---------------------------------------

  ghost predicate InSccs(s: State, x: Header) {
    exists i :: 0 <= i < |s.sccs| && x in s.sccs[i]
  }

  /** `counter` counts the visited headers, and every number is below it. */
  ghost predicate Numbered(s: State) {
    && s.lowlink.Keys == s.index.Keys
    && s.onStack.Keys == s.index.Keys
    && s.counter == |s.index|
    && (forall x :: x in s.index ==> s.index[x] < s.counter)
  }

  ghost predicate Injective(s: State) {
    forall x, y {:trigger s.index[x], s.index[y]} ::
      x in s.index && y in s.index && s.index[x] == s.index[y] ==> x == y
  }

  /** The stack is strictly increasing in index, and `onStack` says who is on it. */
  ghost predicate StackOrdered(s: State) {
    && s.onStack.Keys == s.index.Keys
    && (forall x :: x in s.stack ==> x in s.index)
    && (forall i, j :: 0 <= i < j < |s.stack| ==> s.index[s.stack[i]] < s.index[s.stack[j]])
    && (forall x :: x in s.index ==> (s.onStack[x] <==> x in s.stack))
  }

  /** A visited header is on the stack or in a finished component, never both,
      and in one component only. */
  ghost predicate Partitioned(s: State) {
    && (forall x :: x in s.index <==> x in s.stack || InSccs(s, x))
    && (forall x :: x in s.stack ==> !InSccs(s, x))
    && Disjoint(s.sccs)
  }

  ghost predicate Disjoint(sccs: seq<seq<Header>>) {
    forall i, j, x :: 0 <= i < j < |sccs| && x in sccs[i] ==> x !in sccs[j]
  }

  ghost predicate AllSccs(e: Edges, sccs: seq<seq<Header>>) {
    forall i :: 0 <= i < |sccs| ==> IsScc(e, sccs[i])
  }

  ghost predicate ReportedUpTo(sccs: seq<seq<Header>>, i: int, y: Header) {
    exists j :: 0 <= j <= i && j < |sccs| && y in sccs[j]
  }

  /** An edge out of a component leads into itself or into one reported earlier. */
  ghost predicate ReverseTopological(e: Edges, sccs: seq<seq<Header>>) {
    forall i, x, y :: 0 <= i < |sccs| && x in sccs[i] && y in Succ(e, x) ==> ReportedUpTo(sccs, i, y)
  }

  /** `y` reaches a header whose call is still open and which is not above it. */
  ghost predicate Anchored(e: Edges, s: State, gray: set<Header>, y: Header) {
    exists g :: g in gray && g in s.index && y in s.index && s.index[g] <= s.index[y] && Reach(e, y, g)
  }

  /** Earlier stack entries reach later ones, and every entry is anchored. */
  ghost predicate StackConnected(e: Edges, s: State, gray: set<Header>)
    requires StackOrdered(s)
  {
    && (forall g :: g in gray ==> g in s.stack)
    && (forall x, y {:trigger Reach(e, x, y)} ::
          x in s.stack && y in s.stack && s.index[x] <= s.index[y] ==> Reach(e, x, y))
    && (forall y {:trigger Anchored(e, s, gray, y)} :: y in s.stack ==> Anchored(e, s, gray, y))
  }

  /** Once a header's call has returned, all its targets have been visited. */
  ghost predicate NoBlackToWhite(e: Edges, s: State, gray: set<Header>) {
    forall x, y :: x in s.index && x !in gray && y in Succ(e, x) ==> y in s.index
  }

  ghost predicate Inv(e: Edges, nodes: set<Header>, s: State, gray: set<Header>) {
    && s.index.Keys <= nodes
    && Numbered(s) && Injective(s)
    && StackOrdered(s)
    && Partitioned(s)
    && AllSccs(e, s.sccs) && ReverseTopological(e, s.sccs)
    && StackConnected(e, s, gray)
    && NoBlackToWhite(e, s, gray)
  }

  // ----- contract of one call ----------------------------------------------

  /** What a call leaves alone: the caller's stack, all earlier numbers and
      all components already reported. */
  ghost predicate Extends(s0: State, s: State) {
    && s0.stack <= s.stack
    && s0.sccs <= s.sccs
    && s0.counter <= s.counter
    && (forall x :: x in s0.index ==> x in s.index && s.index[x] == s0.index[x])
    && (forall x :: x in s0.lowlink ==> x in s.lowlink && s.lowlink[x] == s0.lowlink[x])
    && (forall x :: x in s.index && x !in s0.index ==> s0.counter <= s.index[x])
  }

  /** `low` is the index of a stack entry that `v` reaches. */
  ghost predicate Attained(e: Edges, s: State, v: Header, low: nat) {
    exists y :: y in s.stack && y in s.index && s.index[y] == low && Reach(e, v, y)
  }

  /** No edge from stack entries numbered `from` or later into the caller's
      stack ends below `low`. */
  ghost predicate Bounded(e: Edges, s0: State, s: State, from: nat, low: nat) {
    forall x, y :: x in s.stack && x in s.index && from <= s.index[x] && y in Succ(e, x) && y in s0.stack && y in s.index ==>
      low <= s.index[y]
  }

  ghost predicate Entry(e: Edges, nodes: set<Header>, s: State, v: Header, gray: set<Header>) {
    && Closed(e, nodes)
    && Inv(e, nodes, s, gray)
    && v in nodes && v !in s.index
    && (forall x {:trigger Reach(e, x, v)} :: x in s.stack ==> Reach(e, x, v))
  }

  /** What `strongconnect(v)` guarantees when it returns. */
  ghost predicate Post(e: Edges, s0: State, s: State, v: Header) {
    && Extends(s0, s)
    && v in s.index && v in s.lowlink
    && s.index[v] == s0.counter
    && Bounded(e, s0, s, s0.counter, s.lowlink[v])
    && (if s.lowlink[v] == s.index[v]
        then s.stack == s0.stack
        else
          && s.lowlink[v] < s.index[v]
          && |s.stack| > |s0.stack| && s.stack[|s0.stack|] == v
          && Attained(e, s, v, s.lowlink[v]))
  }

  /** The loop over the targets of `v`, with `todo` still to be looked at. */
  ghost predicate Scanning(e: Edges, s0: State, s: State, v: Header, todo: set<Header>) {
    && |s.stack| > |s0.stack| && s.stack[|s0.stack|] == v
    && v in s.index && v in s.lowlink
    && s.index[v] == s0.counter
    && s.lowlink[v] <= s.index[v]
    && Attained(e, s, v, s.lowlink[v])
    && Bounded(e, s0, s, s0.counter + 1, s.lowlink[v])
    && Scanned(e, s0, s, v, todo, s.lowlink[v])
  }

  /** The targets already looked at are visited and taken into account by `low`. */
  ghost predicate Scanned(e: Edges, s0: State, s: State, v: Header, todo: set<Header>, low: nat) {
    forall y :: y in Succ(e, v) && y !in todo ==>
      y in s.index && (y in s0.stack ==> low <= s.index[y])
  }

  // ----- numbering and pushing `v` -----------------------------------------

  ghost function Pushed(s: State, v: Header): State {
    State(s.counter + 1, s.index[v := s.counter], s.lowlink[v := s.counter],
          s.onStack[v := true], s.stack + [v], s.sccs)
  }

  lemma PushStackOrdered(s0: State, v: Header)
    requires Numbered(s0) && StackOrdered(s0) && v !in s0.index
    ensures StackOrdered(Pushed(s0, v))
  {
    var s := Pushed(s0, v);
    forall i, j | 0 <= i < j < |s.stack| ensures s.index[s.stack[i]] < s.index[s.stack[j]] {
      assert s0.stack[i] in s0.stack;
      if j < |s0.stack| { assert s0.stack[j] in s0.stack; }
    }
  }

  lemma PushPartitioned(s0: State, v: Header)
    requires Partitioned(s0) && v !in s0.index
    ensures Partitioned(Pushed(s0, v))
  {
    var s := Pushed(s0, v);
    assert forall x :: x in s.stack <==> x in s0.stack || x == v;
    assert forall x :: InSccs(s, x) <==> InSccs(s0, x);
  }

  lemma PushAnchored(e: Edges, s0: State, v: Header, gray: set<Header>, y: Header)
    requires v !in s0.index && (y == v || Anchored(e, s0, gray, y))
    ensures Anchored(e, Pushed(s0, v), gray + {v}, y)
  {
    var s := Pushed(s0, v);
    if y == v {
      ReachRefl(e, v);
      assert v in gray + {v};
    } else {
      var g :| g in gray && g in s0.index && y in s0.index && s0.index[g] <= s0.index[y] && Reach(e, y, g);
      assert g in gray + {v} && s.index[g] == s0.index[g];
    }
  }

  lemma PushStackConnected(e: Edges, s0: State, v: Header, gray: set<Header>)
    requires Numbered(s0) && StackOrdered(s0) && StackConnected(e, s0, gray) && v !in s0.index
    requires forall x {:trigger Reach(e, x, v)} :: x in s0.stack ==> Reach(e, x, v)
    ensures StackOrdered(Pushed(s0, v)) && StackConnected(e, Pushed(s0, v), gray + {v})
  {
    var s := Pushed(s0, v);
    PushStackOrdered(s0, v);
    forall x, y | x in s.stack && y in s.stack && s.index[x] <= s.index[y] ensures Reach(e, x, y) {
      if y == v {
        ReachRefl(e, v);
      } else {
        assert y in s0.stack && s.index[y] < s0.counter;
        assert x in s0.stack;
      }
    }
    forall y | y in s.stack ensures Anchored(e, s, gray + {v}, y) {
      if y in s0.stack { assert Anchored(e, s0, gray, y); }
      PushAnchored(e, s0, v, gray, y);
    }
  }

  lemma PushInv(e: Edges, nodes: set<Header>, s0: State, v: Header, gray: set<Header>)
    requires Entry(e, nodes, s0, v, gray)
    ensures Inv(e, nodes, Pushed(s0, v), gray + {v})
  {
    hide Partitioned, StackConnected, AllSccs, ReverseTopological;
    PushPartitioned(s0, v);
    PushStackConnected(e, s0, v, gray);
  }

  lemma PushScanning(e: Edges, s0: State, v: Header)
    requires Numbered(s0) && StackOrdered(s0) && v !in s0.index
    ensures Scanning(e, s0, Pushed(s0, v), v, Succ(e, v))
    ensures Extends(s0, Pushed(s0, v))
  {
    var s := Pushed(s0, v);
    ReachRefl(e, v);
    assert s.stack[|s0.stack|] == v;
  }

  // ----- one target of `v` -------------------------------------------------

  ghost function Lowered(s: State, v: Header, low: nat): State
    requires v in s.lowlink
  {
    s.(lowlink := s.lowlink[v := if low < s.lowlink[v] then low else s.lowlink[v]])
  }

  lemma LoweredInv(e: Edges, nodes: set<Header>, s: State, v: Header, gray: set<Header>, low: nat)
    requires Inv(e, nodes, s, gray) && v in s.lowlink
    ensures Inv(e, nodes, Lowered(s, v, low), gray)
  {
    var t := Lowered(s, v, low);
    assert t.lowlink.Keys == s.lowlink.Keys;
    assert forall x :: InSccs(t, x) <==> InSccs(s, x);
    assert StackConnected(e, t, gray) by {
      forall y | y in t.stack ensures Anchored(e, t, gray, y) {
        assert Anchored(e, s, gray, y);
      }
    }
  }

  ghost predicate GrayBelow(s: State, gray: set<Header>, v: Header) {
    v in s.index && forall g :: g in gray ==> g in s.index && s.index[g] < s.index[v]
  }

  /** While `v` is the innermost open call, the whole stack reaches it. */
  lemma StackReachesInnermost(e: Edges, s: State, v: Header, gray: set<Header>, x: Header)
    requires StackOrdered(s) && StackConnected(e, s, gray + {v}) && GrayBelow(s, gray, v)
    requires v in s.stack && x in s.stack
    ensures Reach(e, x, v)
  {
    if s.index[v] < s.index[x] {
      assert Anchored(e, s, gray + {v}, x);
      var g :| g in gray + {v} && g in s.index && s.index[g] <= s.index[x] && Reach(e, x, g);
      if g != v {
        assert Reach(e, g, v);
        ReachTrans(e, x, g, v);
      }
    }
  }

  lemma ChildEntry(e: Edges, nodes: set<Header>, s: State, v: Header, gray: set<Header>, w: Header)
    requires Closed(e, nodes) && Inv(e, nodes, s, gray + {v}) && GrayBelow(s, gray, v)
    requires v in s.stack && w in Succ(e, v) && w !in s.index
    ensures Entry(e, nodes, s, w, gray + {v})
  {
    ReachEdge(e, v, w);
    forall x | x in s.stack ensures Reach(e, x, w) {
      StackReachesInnermost(e, s, v, gray, x);
      ReachTrans(e, x, v, w);
    }
  }

  lemma ChildAttained(e: Edges, s0: State, s1: State, s2: State, v: Header, w: Header, todo: set<Header>)
    requires Scanning(e, s0, s1, v, todo) && Post(e, s1, s2, w)
    requires w in Succ(e, v) && s1.index[v] < s1.counter
    ensures v in s2.index && v in s2.lowlink && s2.lowlink[v] == s1.lowlink[v] && s2.index[v] == s1.index[v]
    ensures Attained(e, s2, v, Lowered(s2, v, s2.lowlink[w]).lowlink[v])
  {
    if s2.lowlink[w] < s2.lowlink[v] {
      var y :| y in s2.stack && y in s2.index && s2.index[y] == s2.lowlink[w] && Reach(e, w, y);
      ReachEdge(e, v, w);
      ReachTrans(e, v, w, y);
    } else {
      var y :| y in s1.stack && y in s1.index && s1.index[y] == s1.lowlink[v] && Reach(e, v, y);
      assert y in s2.stack;
    }
  }

  lemma ChildBounded(e: Edges, s0: State, s1: State, s2: State, v: Header, w: Header, low: nat)
    requires s0.stack <= s1.stack && StackOrdered(s1) && StackOrdered(s2) && Partitioned(s1) && Partitioned(s2)
    requires v in s1.lowlink && w in s2.lowlink
    requires Extends(s1, s2) && Bounded(e, s0, s1, s0.counter + 1, s1.lowlink[v])
    requires Bounded(e, s1, s2, s1.counter, s2.lowlink[w])
    requires low <= s1.lowlink[v] && low <= s2.lowlink[w]
    ensures Bounded(e, s0, s2, s0.counter + 1, low)
  {
    forall x, y | x in s2.stack && x in s2.index && s0.counter + 1 <= s2.index[x]
                  && y in Succ(e, x) && y in s0.stack && y in s2.index
      ensures low <= s2.index[y]
    {
      assert y in s1.stack;
      if x in s1.index {
        StackKept(s1, s2, x);
      }
    }
  }

  /** A header that was off the stack never comes back. */
  lemma StackKept(s1: State, s2: State, x: Header)
    requires Partitioned(s1) && Partitioned(s2) && s1.sccs <= s2.sccs
    requires x in s1.index && x in s2.stack
    ensures x in s1.stack
  {
    if InSccs(s1, x) {
      var i :| 0 <= i < |s1.sccs| && x in s1.sccs[i];
      assert x in s2.sccs[i];
      assert InSccs(s2, x);
    }
  }

  lemma ChildScanning(e: Edges, s0: State, s1: State, s2: State, v: Header, w: Header, todo: set<Header>)
    requires StackOrdered(s1) && StackOrdered(s2) && Partitioned(s1) && Partitioned(s2)
    requires Scanning(e, s0, s1, v, todo) && Post(e, s1, s2, w)
    requires s0.stack <= s1.stack && s1.index[v] < s1.counter
    requires w in todo && w in Succ(e, v) && w !in s1.index
    ensures v in s2.lowlink && v in s2.index && w in s2.lowlink
    ensures Scanning(e, s0, Lowered(s2, v, s2.lowlink[w]), v, todo - {w})
  {
    ChildAttained(e, s0, s1, s2, v, w, todo);
    var t := Lowered(s2, v, s2.lowlink[w]);
    ChildBounded(e, s0, s1, s2, v, w, t.lowlink[v]);
    ChildScanned(e, s0, s1, s2, v, w, todo, t.lowlink[v]);
    assert s2.stack[|s0.stack|] == v;
    LowlinkIrrelevant(e, s0, s2, t, v, todo - {w}, t.lowlink[v]);
  }

  lemma ChildScanned(e: Edges, s0: State, s1: State, s2: State, v: Header, w: Header, todo: set<Header>, low: nat)
    requires v in s1.lowlink && Scanned(e, s0, s1, v, todo, s1.lowlink[v]) && Extends(s1, s2)
    requires s0.stack <= s1.stack && (forall y :: y in s1.stack ==> y in s1.index)
    requires w !in s1.index && w in s2.index && low <= s1.lowlink[v]
    ensures Scanned(e, s0, s2, v, todo - {w}, low)
  {
    forall y | y in Succ(e, v) && y !in todo - {w}
      ensures y in s2.index && (y in s0.stack ==> low <= s2.index[y])
    {
      if y in s0.stack { assert y in s1.stack; }
    }
  }

  lemma LowlinkIrrelevant(e: Edges, s0: State, s: State, t: State, v: Header, todo: set<Header>, low: nat)
    requires t == s.(lowlink := t.lowlink)
    requires Attained(e, s, v, low) && Bounded(e, s0, s, s0.counter + 1, low) && Scanned(e, s0, s, v, todo, low)
    ensures Attained(e, t, v, low) && Bounded(e, s0, t, s0.counter + 1, low) && Scanned(e, s0, t, v, todo, low)
  {
    var y :| y in s.stack && y in s.index && s.index[y] == low && Reach(e, v, y);
    assert y in t.stack && y in t.index;
  }

  lemma BackEdgeScanning(e: Edges, s0: State, s: State, v: Header, w: Header, todo: set<Header>)
    requires StackOrdered(s) && Scanning(e, s0, s, v, todo) && w in todo && w in Succ(e, v) && w in s.stack
    ensures Scanning(e, s0, Lowered(s, v, s.index[w]), v, todo - {w})
  {
    ReachEdge(e, v, w);
    var t := Lowered(s, v, s.index[w]);
    assert Attained(e, t, v, t.lowlink[v]) by {
      var y :| y in s.stack && y in s.index && s.index[y] == s.lowlink[v] && Reach(e, v, y);
      assert y in t.stack && w in t.stack;
    }
  }

  lemma SettledScanning(e: Edges, s0: State, s: State, v: Header, w: Header, todo: set<Header>)
    requires Scanning(e, s0, s, v, todo) && w in todo && w in s.index && w !in s.stack && s0.stack <= s.stack
    ensures Scanning(e, s0, s, v, todo - {w})
  {
  }

  // ----- leaving `v` on the stack ------------------------------------------

  lemma StayAnchored(e: Edges, s: State, v: Header, gray: set<Header>, low: nat, y: Header)
    requires StackOrdered(s) && StackConnected(e, s, gray + {v})
    requires v in s.index && low < s.index[v] && Attained(e, s, v, low) && y in s.stack
    ensures Anchored(e, s, gray, y)
  {
    assert Anchored(e, s, gray + {v}, y);
    var g :| g in gray + {v} && g in s.index && s.index[g] <= s.index[y] && Reach(e, y, g);
    if g == v {
      var a :| a in s.stack && a in s.index && s.index[a] == low && Reach(e, v, a);
      assert Anchored(e, s, gray + {v}, a);
      var h :| h in gray + {v} && h in s.index && s.index[h] <= s.index[a] && Reach(e, a, h);
      ReachTrans(e, y, v, a);
      ReachTrans(e, y, a, h);
    }
  }

  lemma StayConnected(e: Edges, s: State, v: Header, gray: set<Header>, low: nat)
    requires StackOrdered(s) && StackConnected(e, s, gray + {v})
    requires v in s.index && low < s.index[v] && Attained(e, s, v, low)
    ensures StackConnected(e, s, gray)
  {
    hide Anchored, Attained;
    forall y | y in s.stack ensures Anchored(e, s, gray, y) {
      StayAnchored(e, s, v, gray, low, y);
    }
  }

  lemma AllTargetsVisited(e: Edges, s: State, v: Header, gray: set<Header>)
    requires NoBlackToWhite(e, s, gray + {v})
    requires forall y :: y in Succ(e, v) ==> y in s.index
    ensures NoBlackToWhite(e, s, gray)
  {
  }

  lemma StayInv(e: Edges, nodes: set<Header>, s0: State, s: State, v: Header, gray: set<Header>)
    requires Inv(e, nodes, s, gray + {v}) && Scanning(e, s0, s, v, {}) && s.lowlink[v] < s.index[v]
    ensures Inv(e, nodes, s, gray)
  {
    StayConnected(e, s, v, gray, s.lowlink[v]);
    AllTargetsVisited(e, s, v, gray);
  }

  lemma StayPost(e: Edges, nodes: set<Header>, s0: State, s: State, v: Header)
    requires Injective(s) && Extends(s0, s) && Scanning(e, s0, s, v, {}) && s.lowlink[v] < s.index[v]
    ensures Post(e, s0, s, v)
  {
    forall x, y | x in s.stack && x in s.index && s0.counter <= s.index[x]
                  && y in Succ(e, x) && y in s0.stack && y in s.index
      ensures s.lowlink[v] <= s.index[y]
    {
      if s.index[x] == s.index[v] { assert x == v; }
    }
  }

  // ----- popping the component of `v` --------------------------------------

  /** `c` is the part of the stack above the caller's. */
  ghost predicate IsTop(s0: State, s: State, c: seq<Header>) {
    Distinct(c) && forall x :: x in c <==> x in s.stack && x !in s0.stack
  }

  ghost predicate IsPopped(s0: State, s: State, c: seq<Header>, t: State) {
    && t == State(s.counter, s.index, s.lowlink, t.onStack, s0.stack, s.sccs + [c])
    && t.onStack.Keys == s.onStack.Keys
    && (forall x :: x in t.onStack ==> (t.onStack[x] <==> x in s0.stack))
  }

  /** Edges leave a component about to be popped only into finished ones. */
  lemma EdgeFromTop(e: Edges, s0: State, s: State, v: Header, gray: set<Header>, x: Header, y: Header)
    requires StackOrdered(s) && Partitioned(s) && Injective(s) && NoBlackToWhite(e, s, gray + {v})
    requires Extends(s0, s) && Numbered(s0) && StackOrdered(s0) && Partitioned(s0)
    requires forall g :: g in gray ==> g in s0.stack
    requires Scanning(e, s0, s, v, {}) && s.lowlink[v] == s.index[v]
    requires x in s.stack && x !in s0.stack && y in Succ(e, x)
    ensures (y in s.stack && y !in s0.stack) || InSccs(s, y)
  {
    TopNumbers(s0, s, x);
    assert x != v ==> s.index[x] != s.index[v];
    assert y in s.index;
    CallerNumbers(s0, s);
  }

  lemma CallerNumbers(s0: State, s: State)
    requires Extends(s0, s) && Numbered(s0) && StackOrdered(s0)
    ensures forall y :: y in s0.stack ==> y in s.index && s.index[y] < s0.counter
  {
  }

  lemma TopNumbers(s0: State, s: State, x: Header)
    requires Extends(s0, s) && Partitioned(s0) && Partitioned(s)
    requires x in s.stack && x !in s0.stack
    ensures x in s.index && s0.counter <= s.index[x]
  {
    if x in s0.index {
      StackKept(s0, s, x);
    }
  }

  ghost function FinishedSet(s: State): set<Header> {
    set z | z in s.index && InSccs(s, z)
  }

  lemma FinishedClosed(e: Edges, s: State)
    requires Partitioned(s) && ReverseTopological(e, s.sccs)
    ensures Closed(e, FinishedSet(s))
  {
    forall x, y | x in FinishedSet(s) && y in Succ(e, x) ensures y in FinishedSet(s) {
      var i :| 0 <= i < |s.sccs| && x in s.sccs[i];
      assert ReportedUpTo(s.sccs, i, y);
      assert InSccs(s, y);
    }
  }

  lemma TopIsMaximal(e: Edges, s: State, c: seq<Header>, x: Header, y: Header)
    requires Partitioned(s) && ReverseTopological(e, s.sccs)
    requires forall z :: z in c ==> z in s.stack
    requires forall a, b :: a in c && b in Succ(e, a) ==> b in c || InSccs(s, b)
    requires x in c && Mutual(e, x, y)
    ensures y in c
  {
    FinishedClosed(e, s);
    var f := FinishedSet(s);
    var all := f + set z | z in c;
    assert Closed(e, all) by {
      forall a, b | a in all && b in Succ(e, a) ensures b in all {
        if a in c && b !in c { assert InSccs(s, b); }
      }
    }
    ClosedReach(e, all, x, y);
    assert x in s.stack && x !in f;
    if y in f {
      ClosedReach(e, f, y, x);
    }
  }

  lemma TopIsConnected(e: Edges, s: State, v: Header, gray: set<Header>, x: Header, y: Header)
    requires StackOrdered(s) && StackConnected(e, s, gray + {v}) && GrayBelow(s, gray, v)
    requires v in s.stack && x in s.stack && y in s.stack && s.index[v] <= s.index[y]
    ensures Reach(e, x, y)
  {
    StackReachesInnermost(e, s, v, gray, x);
    assert Reach(e, v, y);
    ReachTrans(e, x, v, y);
  }

  lemma TopIsScc(e: Edges, nodes: set<Header>, s0: State, s: State, v: Header, gray: set<Header>, c: seq<Header>)
    requires Inv(e, nodes, s0, gray) && Inv(e, nodes, s, gray + {v}) && Extends(s0, s) && GrayBelow(s, gray, v)
    requires Scanning(e, s0, s, v, {}) && s.lowlink[v] == s.index[v] && v !in s0.stack && IsTop(s0, s, c)
    ensures IsScc(e, c)
    ensures forall a, b :: a in c && b in Succ(e, a) ==> b in c || InSccs(s, b)
  {
    assert v in s.stack;
    assert v in c;
    forall x, y | x in c && y in c ensures Reach(e, x, y) {
      TopNumbers(s0, s, y);
      TopIsConnected(e, s, v, gray, x, y);
    }
    forall a, b | a in c && b in Succ(e, a) ensures b in c || InSccs(s, b) {
      EdgeFromTop(e, s0, s, v, gray, a, b);
    }
    forall x, y | x in c && Mutual(e, x, y) ensures y in c {
      TopIsMaximal(e, s, c, x, y);
    }
  }

  lemma PopPartitioned(s0: State, s: State, c: seq<Header>, t: State)
    requires Partitioned(s) && s0.stack <= s.stack && IsTop(s0, s, c) && IsPopped(s0, s, c, t)
    ensures Partitioned(t)
  {
    forall x ensures InSccs(t, x) <==> InSccs(s, x) || x in c {
      if InSccs(s, x) {
        var i :| 0 <= i < |s.sccs| && x in s.sccs[i];
        assert x in t.sccs[i];
      }
      if x in c {
        assert x in t.sccs[|s.sccs|];
      }
    }
    forall i, j, x | 0 <= i < j < |t.sccs| && x in t.sccs[i] ensures x !in t.sccs[j] {
      assert x in s.sccs[i] && InSccs(s, x);
      if j == |s.sccs| { assert x !in s.stack; }
    }
  }

  lemma PopReverseTopological(e: Edges, s: State, c: seq<Header>)
    requires ReverseTopological(e, s.sccs)
    requires forall a, b :: a in c && b in Succ(e, a) ==> b in c || InSccs(s, b)
    ensures ReverseTopological(e, s.sccs + [c])
  {
    var sccs := s.sccs + [c];
    forall i, x, y | 0 <= i < |sccs| && x in sccs[i] && y in Succ(e, x) ensures ReportedUpTo(sccs, i, y) {
      if i < |s.sccs| {
        assert x in s.sccs[i];
        assert ReportedUpTo(s.sccs, i, y);
        var j :| 0 <= j <= i && j < |s.sccs| && y in s.sccs[j];
        assert y in sccs[j];
      } else if y in c {
        assert y in sccs[|s.sccs|];
      } else {
        var j :| 0 <= j < |s.sccs| && y in s.sccs[j];
        assert y in sccs[j];
      }
    }
  }

  lemma PopConnected(e: Edges, s0: State, t: State, gray: set<Header>)
    requires StackOrdered(s0) && StackOrdered(t) && StackConnected(e, s0, gray) && t.stack == s0.stack
    requires forall x :: x in s0.index ==> x in t.index && t.index[x] == s0.index[x]
    ensures StackConnected(e, t, gray)
  {
    forall y | y in t.stack ensures Anchored(e, t, gray, y) {
      assert Anchored(e, s0, gray, y);
      var g :| g in gray && g in s0.index && y in s0.index && s0.index[g] <= s0.index[y] && Reach(e, y, g);
      assert g in t.index && t.index[g] == s0.index[g];
    }
  }

  lemma PopStackOrdered(s0: State, s: State, c: seq<Header>, t: State)
    requires StackOrdered(s0) && StackOrdered(s) && Extends(s0, s) && IsPopped(s0, s, c, t)
    ensures StackOrdered(t)
  {
    forall i, j | 0 <= i < j < |t.stack| ensures t.index[t.stack[i]] < t.index[t.stack[j]] {
      assert s0.stack[i] in s0.stack && s0.stack[j] in s0.stack;
    }
  }

  lemma SameNumbers(s: State, t: State)
    requires Numbered(s) && Injective(s)
    requires t.counter == s.counter && t.index == s.index && t.lowlink == s.lowlink && t.onStack.Keys == s.onStack.Keys
    ensures Numbered(t) && Injective(t)
  {
  }

  lemma PopInv(e: Edges, nodes: set<Header>, s0: State, s: State, v: Header, gray: set<Header>, c: seq<Header>, t: State)
    requires Inv(e, nodes, s0, gray) && Inv(e, nodes, s, gray + {v}) && Extends(s0, s) && GrayBelow(s, gray, v)
    requires Scanning(e, s0, s, v, {}) && s.lowlink[v] == s.index[v] && v !in s0.stack
    requires IsTop(s0, s, c) && IsPopped(s0, s, c, t)
    ensures Inv(e, nodes, t, gray)
  {
    PopComponents(e, nodes, s0, s, v, gray, c);
    PopStack(e, s0, s, gray, c, t);
    PopPartitioned(s0, s, c, t);
    AllTargetsVisited(e, s, v, gray);
    SameNumbers(s, t);
  }

  lemma PopComponents(e: Edges, nodes: set<Header>, s0: State, s: State, v: Header, gray: set<Header>, c: seq<Header>)
    requires Inv(e, nodes, s0, gray) && Inv(e, nodes, s, gray + {v}) && Extends(s0, s) && GrayBelow(s, gray, v)
    requires Scanning(e, s0, s, v, {}) && s.lowlink[v] == s.index[v] && v !in s0.stack && IsTop(s0, s, c)
    ensures AllSccs(e, s.sccs + [c]) && ReverseTopological(e, s.sccs + [c])
  {
    TopIsScc(e, nodes, s0, s, v, gray, c);
    PopReverseTopological(e, s, c);
  }

  lemma PopStack(e: Edges, s0: State, s: State, gray: set<Header>, c: seq<Header>, t: State)
    requires StackOrdered(s0) && StackConnected(e, s0, gray) && StackOrdered(s) && Extends(s0, s) && IsPopped(s0, s, c, t)
    ensures StackOrdered(t) && StackConnected(e, t, gray)
  {
    PopStackOrdered(s0, s, c, t);
    PopConnected(e, s0, t, gray);
  }

  lemma PopPost(e: Edges, s0: State, s: State, v: Header, c: seq<Header>, t: State)
    requires Numbered(s0) && StackOrdered(s0) && Extends(s0, s) && v in s.index && v in s.lowlink
    requires s.index[v] == s0.counter && s.lowlink[v] == s.index[v] && IsPopped(s0, s, c, t)
    ensures Post(e, s0, t, v)
  {
  }

  // ----- the steps of one call ---------------------------------------------

  /** Between the push of `v` and the end of its loop. */
  ghost predicate Open(e: Edges, nodes: set<Header>, s0: State, s: State, v: Header, gray: set<Header>, todo: set<Header>) {
    && Inv(e, nodes, s, gray + {v})
    && Extends(s0, s)
    && Scanning(e, s0, s, v, todo)
    && GrayBelow(s, gray, v)
    && v in s.stack && v !in s0.stack && v !in s0.lowlink && todo <= Succ(e, v)
  }

  lemma EnterOpens(e: Edges, nodes: set<Header>, s0: State, v: Header, gray: set<Header>)
    requires Entry(e, nodes, s0, v, gray)
    ensures Open(e, nodes, s0, Pushed(s0, v), v, gray, Succ(e, v))
  {
    PushInv(e, nodes, s0, v, gray);
    PushScanning(e, s0, v);
    assert Pushed(s0, v).stack[|s0.stack|] == v;
  }

  lemma ChildReturns(e: Edges, nodes: set<Header>, s0: State, s1: State, s2: State, v: Header, gray: set<Header>,
                     w: Header, todo: set<Header>)
    requires Open(e, nodes, s0, s1, v, gray, todo) && w in todo && w !in s1.index
    requires Inv(e, nodes, s2, gray + {v}) && Post(e, s1, s2, w)
    ensures v in s2.lowlink && w in s2.lowlink
    ensures Open(e, nodes, s0, Lowered(s2, v, s2.lowlink[w]), v, gray, todo - {w})
  {
    ChildScanning(e, s0, s1, s2, v, w, todo);
    LoweredInv(e, nodes, s2, v, gray + {v}, s2.lowlink[w]);
    ExtendsThroughChild(s0, s1, s2, v, s2.lowlink[w]);
    assert GrayBelow(Lowered(s2, v, s2.lowlink[w]), gray, v);
  }

  lemma ExtendsThroughChild(s0: State, s1: State, s2: State, v: Header, low: nat)
    requires Extends(s0, s1) && Extends(s1, s2) && v in s2.lowlink && v !in s0.lowlink
    ensures Extends(s0, Lowered(s2, v, low))
  {
  }

  lemma BackEdgeSeen(e: Edges, nodes: set<Header>, s0: State, s: State, v: Header, gray: set<Header>,
                     w: Header, todo: set<Header>)
    requires Open(e, nodes, s0, s, v, gray, todo) && w in todo && w in s.stack
    ensures v in s.lowlink && w in s.index
    ensures Open(e, nodes, s0, Lowered(s, v, s.index[w]), v, gray, todo - {w})
  {
    BackEdgeScanning(e, s0, s, v, w, todo);
    LoweredInv(e, nodes, s, v, gray + {v}, s.index[w]);
    ExtendsThroughChild(s0, s, s, v, s.index[w]);
  }

  lemma SettledSeen(e: Edges, nodes: set<Header>, s0: State, s: State, v: Header, gray: set<Header>,
                    w: Header, todo: set<Header>)
    requires Open(e, nodes, s0, s, v, gray, todo) && w in todo && w in s.index && w !in s.stack
    ensures Open(e, nodes, s0, s, v, gray, todo - {w})
  {
    SettledScanning(e, s0, s, v, w, todo);
  }

  lemma LeaveOnStack(e: Edges, nodes: set<Header>, s0: State, s: State, v: Header, gray: set<Header>)
    requires Open(e, nodes, s0, s, v, gray, {}) && s.lowlink[v] != s.index[v]
    ensures Inv(e, nodes, s, gray) && Post(e, s0, s, v)
  {
    StayInv(e, nodes, s0, s, v, gray);
    StayPost(e, nodes, s0, s, v);
  }

  lemma LeavePopped(e: Edges, nodes: set<Header>, s0: State, s: State, v: Header, gray: set<Header>, c: seq<Header>, t: State)
    requires Inv(e, nodes, s0, gray) && Open(e, nodes, s0, s, v, gray, {}) && s.lowlink[v] == s.index[v]
    requires IsTop(s0, s, c) && IsPopped(s0, s, c, t)
    ensures Inv(e, nodes, t, gray) && Post(e, s0, t, v)
  {
    PopInv(e, nodes, s0, s, v, gray, c, t);
    PopPost(e, s0, s, v, c, t);
  }

  lemma OnlyOnce(s: State, i: nat, j: nat)
    requires StackOrdered(s) && i < |s.stack| && j < |s.stack| && s.stack[i] == s.stack[j]
    ensures i == j
  {
  }

  /** Reading the stack from the top down to position `p` lists what is above the caller's part. */
  lemma ReversedIsTop(s0: State, s: State, p: nat, c: seq<Header>)
    requires StackOrdered(s) && s0.stack <= s.stack && p == |s0.stack| && |c| == |s.stack| - p
    requires forall i :: 0 <= i < |c| ==> c[i] == s.stack[|s.stack| - 1 - i]
    ensures IsTop(s0, s, c)
  {
    var n := |s.stack|;
    forall i, j | 0 <= i < j < |c| ensures c[i] != c[j] {
      assert s.index[s.stack[n - 1 - j]] < s.index[s.stack[n - 1 - i]];
    }
    forall x | x in c ensures x in s.stack && x !in s0.stack {
      var i :| 0 <= i < |c| && c[i] == x;
      NotBelow(s0, s, n - 1 - i);
    }
    assert forall k :: 0 <= k < p ==> s.stack[k] == s0.stack[k] && s.stack[k] in s0.stack;
    forall x | x in s.stack && x !in s0.stack ensures x in c {
      var k :| 0 <= k < n && s.stack[k] == x;
      assert c[n - 1 - k] == x;
    }
  }

  lemma StackDistinct(s: State)
    requires StackOrdered(s)
    ensures Distinct(s.stack) && forall i :: 0 <= i < |s.stack| ==> s.stack[i] in s.onStack
  {
    assert forall i :: 0 <= i < |s.stack| ==> s.stack[i] in s.stack;
  }

  /** The effect of popping down to position `p` and appending the list `c`. */
  ghost predicate PoppedTo(s: State, p: nat, c: seq<Header>, t: State) {
    && p <= |s.stack| && |c| == |s.stack| - p
    && (forall i :: 0 <= i < |c| ==> c[i] == s.stack[|s.stack| - 1 - i])
    && t == State(s.counter, s.index, s.lowlink, t.onStack, s.stack[..p], s.sccs + [c])
    && t.onStack.Keys == s.onStack.Keys
    && (forall x :: x in t.onStack ==> t.onStack[x] == (s.onStack[x] && x !in c))
  }

  lemma LeaveReported(e: Edges, nodes: set<Header>, s0: State, s: State, v: Header, gray: set<Header>, c: seq<Header>, t: State)
    requires Inv(e, nodes, s0, gray) && Open(e, nodes, s0, s, v, gray, {}) && s.lowlink[v] == s.index[v]
    requires PoppedTo(s, |s0.stack|, c, t)
    ensures Inv(e, nodes, t, gray) && Post(e, s0, t, v)
  {
    hide PoppedTo, IsTop, IsPopped, Post;
    PoppedIsTop(s0, s, c, t);
    LeavePopped(e, nodes, s0, s, v, gray, c, t);
  }

  lemma PoppedIsTop(s0: State, s: State, c: seq<Header>, t: State)
    requires StackOrdered(s) && s0.stack <= s.stack && PoppedTo(s, |s0.stack|, c, t)
    ensures IsTop(s0, s, c) && IsPopped(s0, s, c, t)
  {
    assert s.stack[..|s0.stack|] == s0.stack;
    ReversedIsTop(s0, s, |s0.stack|, c);
    PoppedState(s0, s, c, t);
  }

  lemma PoppedState(s0: State, s: State, c: seq<Header>, t: State)
    requires StackOrdered(s) && s0.stack <= s.stack && IsTop(s0, s, c)
    requires t == State(s.counter, s.index, s.lowlink, t.onStack, s0.stack, s.sccs + [c])
    requires t.onStack.Keys == s.onStack.Keys
    requires forall x :: x in t.onStack ==> t.onStack[x] == (s.onStack[x] && x !in c)
    ensures IsPopped(s0, s, c, t)
  {
  }

  lemma NotBelow(s0: State, s: State, k: nat)
    requires StackOrdered(s) && s0.stack <= s.stack && |s0.stack| <= k < |s.stack|
    ensures s.stack[k] in s.stack && s.stack[k] !in s0.stack
  {
    if j :| 0 <= j < |s0.stack| && s0.stack[j] == s.stack[k] {
      OnlyOnce(s, j, k);
    }
  }

  // ----- the pass itself ---------------------------------------------------

  class Pass {
    const nodes: set<Header>
    const edges: Edges
    var counter: nat
    var index: map<Header, nat>
    var lowlink: map<Header, nat>
    var onStack: map<Header, bool>
    var stack: seq<Header>
    var sccs: seq<seq<Header>>

    ghost function Now(): State
      reads this
    {
      State(counter, index, lowlink, onStack, stack, sccs)
    }

    constructor (nodes: set<Header>, edges: Edges)
      ensures this.nodes == nodes && this.edges == edges
      ensures Now() == State(0, map[], map[], map[], [], [])
      ensures Inv(edges, nodes, Now(), {})
    {
      this.nodes := nodes;
      this.edges := edges;
      counter := 0;
      index, lowlink, onStack := map[], map[], map[];
      stack, sccs := [], [];
    }

    /** Pops entries until `v`, which sits at position `p`, has been popped. */
    method PopComponent(v: Header, ghost p: nat) returns (scc: seq<Header>)
      requires p < |stack| && stack[p] == v && Distinct(stack)
      requires forall i :: 0 <= i < |stack| ==> stack[i] in onStack
      modifies this`stack, this`onStack
      ensures stack == old(stack)[..p]
      ensures |scc| == |old(stack)| - p
      ensures forall i :: 0 <= i < |scc| ==> scc[i] == old(stack)[|old(stack)| - 1 - i]
      ensures onStack.Keys == old(onStack).Keys
      ensures forall x :: x in onStack ==> onStack[x] == (old(onStack)[x] && x !in scc)
    {
      scc := [];
      ghost var full := stack;
      while true
        invariant p < |stack| <= |full| && stack == full[..|stack|]
        invariant |scc| == |full| - |stack|
        invariant forall i :: 0 <= i < |scc| ==> scc[i] == full[|full| - 1 - i]
        invariant onStack.Keys == old(onStack).Keys
        invariant forall x :: x in onStack ==> onStack[x] == (old(onStack)[x] && x !in scc)
        decreases |stack|
      {
        var w := stack[|stack| - 1];
        assert w == full[|stack| - 1];
        stack := stack[..|stack| - 1];
        onStack := onStack[w := false];
        scc := scc + [w];
        if w == v {
          assert full[|stack|] == full[p];
          break;
        }
      }
    }

    /** Pops the component of `v` and appends it to the reported ones. */
    method ReportComponent(v: Header, ghost p: nat) returns (scc: seq<Header>)
      requires p < |stack| && stack[p] == v && Distinct(stack)
      requires forall i :: 0 <= i < |stack| ==> stack[i] in onStack
      modifies this`stack, this`onStack, this`sccs
      ensures PoppedTo(old(Now()), p, scc, Now())
    {
      scc := PopComponent(v, p);
      sccs := sccs + [scc];
    }

    /** Numbers `v` and pushes it. */
    method Enter(v: Header, ghost gray: set<Header>)
      requires Entry(edges, nodes, Now(), v, gray)
      modifies this
      ensures Open(edges, nodes, old(Now()), Now(), v, gray, Succ(edges, v))
    {
      hide Inv, Open;
      EnterOpens(edges, nodes, Now(), v, gray);
      index, lowlink := index[v := counter], lowlink[v := counter];
      counter := counter + 1;
      stack := stack + [v];
      onStack := onStack[v := true];
      assert Now() == Pushed(old(Now()), v);
    }

    /** Visits the unvisited target `w` of `v` and takes over its lowlink. */
    method Descend(v: Header, w: Header, ghost s0: State, ghost gray: set<Header>, ghost todo: set<Header>)
      requires Closed(edges, nodes) && Open(edges, nodes, s0, Now(), v, gray, todo) && w in todo && w !in index
      modifies this
      ensures Open(edges, nodes, s0, Now(), v, gray, todo - {w})
      decreases nodes - index.Keys, 2
    {
      hide Inv, Post;
      ghost var s1 := Now();
      ChildEntry(edges, nodes, s1, v, gray, w);
      StrongConnect(w, gray + {v});
      ghost var s2 := Now();
      ChildReturns(edges, nodes, s0, s1, s2, v, gray, w, todo);
      lowlink := lowlink[v := if lowlink[w] < lowlink[v] then lowlink[w] else lowlink[v]];
      assert Now() == Lowered(s2, v, s2.lowlink[w]);
    }

    /** Looks at one target `w` of `v`. */
    method Scan(v: Header, w: Header, ghost s0: State, ghost gray: set<Header>, ghost todo: set<Header>)
      requires Closed(edges, nodes) && Open(edges, nodes, s0, Now(), v, gray, todo) && w in todo
      modifies this
      ensures Open(edges, nodes, s0, Now(), v, gray, todo - {w})
      decreases nodes - index.Keys, 3
    {
      hide Injective, Partitioned, AllSccs, ReverseTopological, StackConnected, NoBlackToWhite, Scanning, Extends;
      ghost var s1 := Now();
      if w !in index {
        Descend(v, w, s0, gray, todo);
      } else if onStack[w] {
        BackEdgeSeen(edges, nodes, s0, s1, v, gray, w, todo);
        lowlink := lowlink[v := if index[w] < lowlink[v] then index[w] else lowlink[v]];
        assert Now() == Lowered(s1, v, s1.index[w]);
      } else {
        SettledSeen(edges, nodes, s0, s1, v, gray, w, todo);
      }
    }

    /** Reports the component of `v` when `v` turned out to be its first-visited member. */
    method Leave(v: Header, ghost s0: State, ghost gray: set<Header>)
      requires Inv(edges, nodes, s0, gray) && Open(edges, nodes, s0, Now(), v, gray, {})
      modifies this
      ensures Inv(edges, nodes, Now(), gray) && Post(edges, s0, Now(), v)
    {
      hide Injective, Partitioned, AllSccs, ReverseTopological, StackConnected, NoBlackToWhite, Extends, PoppedTo, Post;
      ghost var s := Now();
      if lowlink[v] == index[v] {
        StackDistinct(s);
        var scc := ReportComponent(v, |s0.stack|);
        LeaveReported(edges, nodes, s0, s, v, gray, scc, Now());
      } else {
        LeaveOnStack(edges, nodes, s0, s, v, gray);
      }
    }

    /** Visits `v` and everything unvisited that it reaches. `gray` is the set
        of headers whose calls are still open. Targets are taken in any order. */
    method StrongConnect(v: Header, ghost gray: set<Header>)
      requires Entry(edges, nodes, Now(), v, gray)
      modifies this
      ensures Inv(edges, nodes, Now(), gray) && Post(edges, old(Now()), Now(), v)
      decreases nodes - index.Keys, 1
    {
      hide Inv, Scanning, Post;
      ghost var s0 := Now();
      Enter(v, gray);
      var todo := Succ(edges, v);
      while todo != {}
        invariant Open(edges, nodes, s0, Now(), v, gray, todo)
      {
        var w :| w in todo;
        Scan(v, w, s0, gray, todo);
        todo := todo - {w};
      }
      Leave(v, s0, gray);
    }

    /** Visits every header, starting from the given ones in order. */
    method Run(order: seq<Header>)
      requires Closed(edges, nodes) && (forall v :: v in order <==> v in nodes)
      requires Inv(edges, nodes, Now(), {})
      modifies this
      ensures Inv(edges, nodes, Now(), {})
      ensures IsDecomposition(edges, nodes, sccs)
      ensures index.Keys == nodes && counter == |nodes| && stack == []
    {
      hide Post, Inv, Entry, IsDecomposition;
      for k := 0 to |order|
        invariant Inv(edges, nodes, Now(), {})
        invariant forall i :: 0 <= i < k ==> order[i] in index
      {
        var v := order[k];
        assert v in order;
        if v !in index {
          ghost var s0 := Now();
          StartEntry(edges, nodes, s0, v);
          StrongConnect(v, {});
          PostVisits(edges, s0, Now(), v);
        }
      }
      assert forall v :: v in nodes ==> v in order;
      AllVisited(edges, nodes, Now());
    }
  }

  lemma NothingOpenNothingStacked(e: Edges, nodes: set<Header>, s: State)
    requires Inv(e, nodes, s, {})
    ensures s.stack == []
  {
    assert |s.stack| > 0 ==> s.stack[0] in s.stack;
    assert forall y :: y in s.stack ==> Anchored(e, s, {}, y);
  }

  lemma StartEntry(e: Edges, nodes: set<Header>, s: State, v: Header)
    requires Closed(e, nodes) && Inv(e, nodes, s, {}) && v in nodes && v !in s.index
    ensures Entry(e, nodes, s, v, {})
  {
    NothingOpenNothingStacked(e, nodes, s);
  }

  lemma PostVisits(e: Edges, s0: State, s: State, v: Header)
    requires Post(e, s0, s, v)
    ensures v in s.index && forall x :: x in s0.index ==> x in s.index
  {
  }

  // ----- what the pass computes --------------------------------------------

  /** `sccs` lists every strongly connected component of `nodes` exactly
      once, each before the components that can reach it. */
  ghost predicate IsDecomposition(e: Edges, nodes: set<Header>, sccs: seq<seq<Header>>) {
    && AllSccs(e, sccs)
    && Disjoint(sccs)
    && (forall x :: x in nodes <==> exists i :: 0 <= i < |sccs| && x in sccs[i])
    && ReverseTopological(e, sccs)
  }

  lemma AllVisited(e: Edges, nodes: set<Header>, s: State)
    requires Inv(e, nodes, s, {}) && forall v :: v in nodes ==> v in s.index
    ensures IsDecomposition(e, nodes, s.sccs) && s.index.Keys == nodes && s.counter == |nodes| && s.stack == []
  {
    NothingOpenNothingStacked(e, nodes, s);
    assert s.index.Keys == nodes;
    assert forall x :: x in nodes <==> InSccs(s, x);
  }

  /** When the call for `v` returns, its lowlink equals its index exactly if
      `v` is the first-visited member of its component. */
  lemma LowlinkMarksFirstVisited(e: Edges, nodes: set<Header>, s0: State, s: State, v: Header, gray: set<Header>)
    requires Entry(e, nodes, s0, v, gray) && Inv(e, nodes, s, gray) && Post(e, s0, s, v)
    ensures s.lowlink[v] == s.index[v] <==>
            forall u {:trigger Mutual(e, v, u)} :: Mutual(e, v, u) ==> u in s.index && s.index[v] <= s.index[u]
  {
    if s.lowlink[v] == s.index[v] {
      forall u | Mutual(e, v, u) ensures u in s.index && s.index[v] <= s.index[u] {
        PoppedComponentIsNew(e, nodes, s0, s, v, u);
      }
    } else {
      var y :| y in s.stack && y in s.index && s.index[y] == s.lowlink[v] && Reach(e, v, y);
      assert v in s.stack;
      assert Reach(e, y, v);
      assert Mutual(e, v, y);
    }
  }

  lemma PoppedComponentIsNew(e: Edges, nodes: set<Header>, s0: State, s: State, v: Header, u: Header)
    requires Partitioned(s0) && Partitioned(s) && AllSccs(e, s.sccs) && Extends(s0, s)
    requires v in s.index && v !in s0.index && s.index[v] == s0.counter && s.stack == s0.stack && Mutual(e, v, u)
    ensures u in s.index && s.index[v] <= s.index[u]
  {
    assert v !in s0.stack && InSccs(s, v);
    var i :| 0 <= i < |s.sccs| && v in s.sccs[i];
    OldComponents(s0, s);
    assert IsScc(e, s.sccs[i]);
    assert u in s.sccs[i] && InSccs(s, u);
    NewComponent(s0, s, i, u);
  }

  lemma OldComponents(s0: State, s: State)
    requires s0.sccs <= s.sccs
    ensures forall k, x :: 0 <= k < |s0.sccs| && x in s.sccs[k] ==> InSccs(s0, x)
  {
    assert forall k :: 0 <= k < |s0.sccs| ==> s.sccs[k] == s0.sccs[k];
  }

  lemma NewComponent(s0: State, s: State, i: nat, x: Header)
    requires s0.sccs <= s.sccs && Disjoint(s.sccs) && |s0.sccs| <= i < |s.sccs| && x in s.sccs[i]
    ensures !InSccs(s0, x)
  {
    forall j | 0 <= j < |s0.sccs| ensures x !in s0.sccs[j] {
      assert s.sccs[j] == s0.sccs[j];
    }
  }
}
