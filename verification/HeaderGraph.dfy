/** Directed graphs over header paths: walks, reachability, strongly connected
    components and cycles through at least two headers. */
module HeaderGraph {

  /** A header, named by its path relative to the include root. */
  datatype Header = Header(path: string)
  type Edges = map<Header, set<Header>>

  /** The targets recorded for `v`; a header without an entry has none. */
  function Succ(e: Edges, v: Header): set<Header> {
    if v in e then e[v] else {}
  }

  /** Every edge that leaves a header of `nodes` stays inside `nodes`. */
  ghost predicate Closed(e: Edges, nodes: set<Header>) {
    forall v, w :: v in nodes && w in Succ(e, v) ==> w in nodes
  }

  ghost predicate Walk(e: Edges, p: seq<Header>) {
    && |p| > 0
    && (|p| == 1 || (p[1] in Succ(e, p[0]) && Walk(e, p[1..])))
  }

  ghost predicate WalkBetween(e: Edges, p: seq<Header>, x: Header, y: Header) {
    Walk(e, p) && p[0] == x && p[|p| - 1] == y
  }

  ghost predicate Reach(e: Edges, x: Header, y: Header) {
    exists p :: WalkBetween(e, p, x, y)
  }

  ghost predicate Mutual(e: Edges, x: Header, y: Header) {
    Reach(e, x, y) && Reach(e, y, x)
  }

  /** `c` lists exactly one strongly connected component: its members reach
      each other, and whoever is mutually reachable with a member is listed. */
  ghost predicate IsScc(e: Edges, c: seq<Header>) {
    && |c| > 0
    && Distinct(c)
    && (forall x, y :: x in c && y in c ==> Reach(e, x, y))
    && (forall x, y :: x in c && Mutual(e, x, y) ==> y in c)
  }

  ghost predicate Distinct<T>(s: seq<T>) {
    forall i, j :: 0 <= i < j < |s| ==> s[i] != s[j]
  }

  /** A cycle through two or more distinct headers, each visited once. */
  ghost predicate IsCycle(e: Edges, p: seq<Header>) {
    && |p| >= 2
    && Distinct(p)
    && Walk(e, p)
    && p[0] in Succ(e, p[|p| - 1])
  }

  ghost predicate HasCycle(e: Edges, nodes: set<Header>) {
    exists p :: IsCycle(e, p) && p[0] in nodes
  }

  lemma ReachRefl(e: Edges, x: Header)
    ensures Reach(e, x, x)
  {
    assert WalkBetween(e, [x], x, x);
  }

  lemma ReachEdge(e: Edges, x: Header, y: Header)
    requires y in Succ(e, x)
    ensures Reach(e, x, y)
  {
    assert [x, y][1..] == [y];
    assert WalkBetween(e, [x, y], x, y);
  }

  lemma {:induction false} WalkConcat(e: Edges, p: seq<Header>, q: seq<Header>)
    requires Walk(e, p) && Walk(e, q) && p[|p| - 1] == q[0]
    ensures Walk(e, p + q[1..])
    ensures (p + q[1..])[0] == p[0] && (p + q[1..])[|p + q[1..]| - 1] == q[|q| - 1]
    decreases |p|
  {
    if |p| == 1 {
      assert p + q[1..] == q;
    } else {
      WalkConcat(e, p[1..], q);
      assert (p + q[1..])[1..] == p[1..] + q[1..];
    }
  }

  lemma ReachTrans(e: Edges, x: Header, y: Header, z: Header)
    requires Reach(e, x, y) && Reach(e, y, z)
    ensures Reach(e, x, z)
  {
    var p :| WalkBetween(e, p, x, y);
    var q :| WalkBetween(e, q, y, z);
    WalkConcat(e, p, q);
    assert WalkBetween(e, p + q[1..], x, z);
  }

  /** A set that no edge leaves contains everything its members reach. */
  lemma {:induction false} ClosedWalk(e: Edges, s: set<Header>, p: seq<Header>)
    requires Closed(e, s) && Walk(e, p) && p[0] in s
    ensures p[|p| - 1] in s
    decreases |p|
  {
    if |p| > 1 {
      ClosedWalk(e, s, p[1..]);
    }
  }

  lemma ClosedReach(e: Edges, s: set<Header>, x: Header, y: Header)
    requires Closed(e, s) && x in s && Reach(e, x, y)
    ensures y in s
  {
    var p :| WalkBetween(e, p, x, y);
    ClosedWalk(e, s, p);
  }

  lemma {:induction false} WalkSuffix(e: Edges, p: seq<Header>, k: nat)
    requires Walk(e, p) && k < |p|
    ensures Walk(e, p[k..])
  {
    if k > 0 {
      WalkSuffix(e, p[1..], k - 1);
      assert p[1..][k - 1..] == p[k..];
    }
  }

  lemma {:induction false} WalkPrefix(e: Edges, p: seq<Header>, k: nat)
    requires Walk(e, p) && k < |p|
    ensures Walk(e, p[..k + 1])
  {
    if k > 0 {
      WalkPrefix(e, p[1..], k - 1);
      assert p[1..][..k] == p[..k + 1][1..];
    }
  }

  lemma DistinctSuffix<T>(s: seq<T>, k: nat)
    requires Distinct(s) && k <= |s|
    ensures Distinct(s[k..])
  {
  }

  lemma DistinctCons<T>(x: T, s: seq<T>)
    requires Distinct(s) && x !in s
    ensures Distinct([x] + s)
  {
    var t := [x] + s;
    forall i, j | 0 <= i < j < |t| ensures t[i] != t[j] {
      assert t[j] == s[j - 1] && (i > 0 ==> t[i] == s[i - 1]);
    }
  }

  /** Repeated headers can be cut out of a walk. */
  lemma {:induction false} SimpleWalk(e: Edges, p: seq<Header>) returns (q: seq<Header>)
    requires Walk(e, p)
    ensures Walk(e, q) && Distinct(q) && q[0] == p[0] && q[|q| - 1] == p[|p| - 1]
    decreases |p|
  {
    if |p| == 1 {
      return p;
    }
    var t := SimpleWalk(e, p[1..]);
    if k :| 0 <= k < |t| && t[k] == p[0] {
      WalkSuffix(e, t, k);
      DistinctSuffix(t, k);
      q := t[k..];
    } else {
      DistinctCons(p[0], t);
      q := [p[0]] + t;
      assert q[1..] == t;
    }
  }

  /** Two distinct mutually reachable headers lie on a common tangle that
      contains a cycle visiting each of its headers once. */
  lemma MutualPairGivesCycle(e: Edges, x: Header, y: Header) returns (c: seq<Header>)
    requires x != y && Mutual(e, x, y)
    ensures IsCycle(e, c) && c[0] == x
  {
    var p :| WalkBetween(e, p, x, y);
    var q := SimpleWalk(e, p);
    var z := q[1];
    assert WalkBetween(e, q[1..], z, y);
    ReachTrans(e, z, y, x);
    var back :| WalkBetween(e, back, z, x);
    var b := SimpleWalk(e, back);
    var n := |b| - 1;
    WalkPrefix(e, b, n - 1);
    c := [x] + b[..n];
    assert c[1..] == b[..n];
    WalkSuffix(e, b, n - 1);
  }

  /** Any two headers of a cycle reach each other. */
  lemma CycleIsMutual(e: Edges, c: seq<Header>, i: nat, j: nat)
    requires IsCycle(e, c) && i < |c| && j < |c|
    ensures Reach(e, c[i], c[j])
  {
    var n := |c| - 1;
    WalkSuffix(e, c, i);
    assert WalkBetween(e, c[i..], c[i], c[n]);
    ReachEdge(e, c[n], c[0]);
    WalkPrefix(e, c, j);
    assert WalkBetween(e, c[..j + 1], c[0], c[j]);
    ReachTrans(e, c[i], c[n], c[0]);
    ReachTrans(e, c[i], c[0], c[j]);
  }
}
