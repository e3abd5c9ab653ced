/** check-include-dag.py: the dependency graph of one package's headers and
    the report of its cycles. The three regular expressions are represented by
    the facts they extract from each header text. */
module IncludeDag {
  import opened Options
  import opened HeaderGraph
  import opened Tarjan

  /** What one line of a header matches: an include target, a forward-declared name. */
  datatype Line = Line(includes: Option<string>, forwards: Option<string>)

  /** A header text: the names it defines, in match order, and its lines. */
  datatype Text = Text(defines: seq<string>, lines: seq<Line>)

  /** Header texts in the order the directory walk found them. */
  type Texts = seq<(Header, Text)>

  ghost predicate OneTextEach(texts: Texts) {
    forall i, j :: 0 <= i < j < |texts| ==> texts[i].0 != texts[j].0
  }

  function Nodes(texts: Texts): set<Header> {
    set i | 0 <= i < |texts| :: texts[i].0
  }

  // ----- owners ------------------------------------------------------------

  /** `h` is the first header, in walk order, that defines `name`. */
  ghost predicate FirstDefiner(texts: Texts, name: string, h: Header) {
    exists i :: 0 <= i < |texts| && texts[i].0 == h && name in texts[i].1.defines
                && forall j :: 0 <= j < i ==> name !in texts[j].1.defines
  }

  ghost predicate OwnersUpTo(texts: Texts, n: nat, owner: map<string, Header>)
    requires n <= |texts|
  {
    forall name, h :: (name in owner && owner[name] == h) <==> FirstDefiner(texts[..n], name, h)
  }

  method CollectOwners(texts: Texts) returns (owner: map<string, Header>)
    ensures forall name, h :: (name in owner && owner[name] == h) <==> FirstDefiner(texts, name, h)
  {
    owner := map[];
    for i := 0 to |texts|
      invariant OwnersUpTo(texts, i, owner)
    {
      ghost var before := owner;
      var defines := texts[i].1.defines;
      for k := 0 to |defines|
        invariant owner == Defaulted(before, defines[..k], texts[i].0)
      {
        if defines[k] !in owner {
          owner := owner[defines[k] := texts[i].0];
        }
        DefaultedStep(before, defines, k, texts[i].0);
      }
      assert defines[..|defines|] == defines;
      DefaultedOwners(texts, i, before, owner);
    }
    assert texts[..|texts|] == texts;
  }

  /** `owner` with `h` filled in for every name of `names` that has no entry. */
  function Defaulted(owner: map<string, Header>, names: seq<string>, h: Header): (r: map<string, Header>)
  {
    map n | n in owner.Keys + (set x | x in names) :: if n in owner then owner[n] else h
  }

  lemma DefaultedStep(owner: map<string, Header>, names: seq<string>, k: nat, h: Header)
    requires k < |names|
    ensures var d := Defaulted(owner, names[..k], h);
            Defaulted(owner, names[..k + 1], h) == if names[k] in d then d else d[names[k] := h]
  {
    assert names[..k + 1] == names[..k] + [names[k]];
  }

  lemma DefaultedOwners(texts: Texts, i: nat, before: map<string, Header>, owner: map<string, Header>)
    requires i < |texts| && OwnersUpTo(texts, i, before)
    requires owner == Defaulted(before, texts[i].1.defines, texts[i].0)
    ensures OwnersUpTo(texts, i + 1, owner)
  {
    var t, t' := texts[..i], texts[..i + 1];
    assert t' == t + [texts[i]];
    forall name, h ensures (name in owner && owner[name] == h) <==> FirstDefiner(t', name, h) {
      if name in before {
        FirstDefinerGrows(t, texts[i], name, before[name]);
        assert FirstDefiner(t, name, before[name]);
        if FirstDefiner(t', name, h) { FirstDefinerUnique(t', name, h, before[name]); }
      } else {
        NoDefiner(t, name, before);
        if name in texts[i].1.defines {
          assert t'[i].0 == texts[i].0;
          if FirstDefiner(t', name, h) { FirstDefinerUnique(t', name, h, texts[i].0); }
        }
      }
    }
  }

  lemma FirstDefinerGrows(t: Texts, x: (Header, Text), name: string, h: Header)
    requires FirstDefiner(t, name, h)
    ensures FirstDefiner(t + [x], name, h)
  {
    var i :| 0 <= i < |t| && t[i].0 == h && name in t[i].1.defines && forall j :: 0 <= j < i ==> name !in t[j].1.defines;
    assert (t + [x])[i] == t[i];
  }

  lemma FirstDefinerUnique(t: Texts, name: string, h: Header, h': Header)
    requires FirstDefiner(t, name, h) && FirstDefiner(t, name, h')
    ensures h == h'
  {
  }

  lemma NoDefiner(t: Texts, name: string, owner: map<string, Header>)
    requires forall n, h :: (n in owner && owner[n] == h) <==> FirstDefiner(t, n, h)
    requires name !in owner
    ensures forall i :: 0 <= i < |t| ==> name !in t[i].1.defines
  {
    if i :| 0 <= i < |t| && name in t[i].1.defines {
      var f := EarliestDefiner(t, name, i);
      assert FirstDefiner(t, name, t[f].0);
    }
  }

  lemma EarliestDefiner(t: Texts, name: string, i: nat) returns (f: nat)
    requires i < |t| && name in t[i].1.defines
    ensures f < |t| && name in t[f].1.defines && forall j :: 0 <= j < f ==> name !in t[j].1.defines
    decreases i
  {
    if j :| 0 <= j < i && name in t[j].1.defines {
      f := EarliestDefiner(t, name, j);
    } else {
      f := i;
    }
  }

  // ----- edges -------------------------------------------------------------

  /** The dependency a single line of header `a` creates. */
  ghost predicate LineEdge(texts: Texts, a: Header, line: Line, b: Header) {
    || (line.includes == Some(b.path) && b in Nodes(texts))
    || (line.forwards.Some? && FirstDefiner(texts, line.forwards.value, b) && b.path != "" && b != a)
  }

  /** `a` includes `b`, or forward-declares a name whose first definer is `b`. */
  ghost predicate Depends(texts: Texts, a: Header, b: Header) {
    exists i, k :: 0 <= i < |texts| && 0 <= k < |texts[i].1.lines| && texts[i].0 == a
                   && LineEdge(texts, a, texts[i].1.lines[k], b)
  }

  function LineTargets(nodes: set<Header>, owner: map<string, Header>, a: Header, line: Line): set<Header> {
    (if line.includes.Some? && Header(line.includes.value) in nodes then {Header(line.includes.value)} else {})
    + (if line.forwards.Some? && line.forwards.value in owner && owner[line.forwards.value].path != ""
          && owner[line.forwards.value] != a then {owner[line.forwards.value]} else {})
  }

  /** The targets that the first `k` lines of one text add. */
  function Targets(nodes: set<Header>, owner: map<string, Header>, a: Header, lines: seq<Line>, k: nat): set<Header>
    requires k <= |lines|
  {
    set j, b | 0 <= j < k && b in LineTargets(nodes, owner, a, lines[j]) :: b
  }

  method CollectEdges(texts: Texts, nodes: set<Header>, owner: map<string, Header>) returns (edges: Edges)
    requires OneTextEach(texts)
    ensures forall i :: 0 <= i < |texts| ==>
      Succ(edges, texts[i].0) == Targets(nodes, owner, texts[i].0, texts[i].1.lines, |texts[i].1.lines|)
    ensures forall a :: a !in Nodes(texts) ==> Succ(edges, a) == {}
  {
    edges := map[];
    for i := 0 to |texts|
      invariant forall j :: 0 <= j < i ==>
        Succ(edges, texts[j].0) == Targets(nodes, owner, texts[j].0, texts[j].1.lines, |texts[j].1.lines|)
      invariant forall j :: i <= j < |texts| ==> Succ(edges, texts[j].0) == {}
      invariant forall a :: a !in Nodes(texts) ==> Succ(edges, a) == {}
    {
      var rel, lines := texts[i].0, texts[i].1.lines;
      ghost var before := edges;
      for k := 0 to |lines|
        invariant Succ(edges, rel) == Targets(nodes, owner, rel, lines, k)
        invariant forall a :: a != rel ==> Succ(edges, a) == Succ(before, a)
      {
        if lines[k].includes.Some? && Header(lines[k].includes.value) in nodes {
          edges := edges[rel := Succ(edges, rel) + {Header(lines[k].includes.value)}];
        }
        if lines[k].forwards.Some? && lines[k].forwards.value in owner {
          var own := owner[lines[k].forwards.value];
          if own.path != "" && own != rel {
            edges := edges[rel := Succ(edges, rel) + {own}];
          }
        }
        TargetsStep(nodes, owner, rel, lines, k);
      }
    }
  }

  lemma TargetsStep(nodes: set<Header>, owner: map<string, Header>, a: Header, lines: seq<Line>, k: nat)
    requires k < |lines|
    ensures Targets(nodes, owner, a, lines, k + 1)
         == Targets(nodes, owner, a, lines, k) + LineTargets(nodes, owner, a, lines[k])
  {
  }

  /** The collected edges are exactly the dependencies, and none leaves the package. */
  lemma EdgesAreDependencies(texts: Texts, owner: map<string, Header>, edges: Edges)
    requires forall name, h :: (name in owner && owner[name] == h) <==> FirstDefiner(texts, name, h)
    requires forall i :: 0 <= i < |texts| ==>
      Succ(edges, texts[i].0) == Targets(Nodes(texts), owner, texts[i].0, texts[i].1.lines, |texts[i].1.lines|)
    requires forall a :: a !in Nodes(texts) ==> Succ(edges, a) == {}
    ensures forall a, b :: b in Succ(edges, a) <==> Depends(texts, a, b)
    ensures Closed(edges, Nodes(texts))
  {
    var nodes := Nodes(texts);
    forall a, b ensures b in Succ(edges, a) ==> Depends(texts, a, b) && b in nodes {
      if b in Succ(edges, a) {
        var i :| 0 <= i < |texts| && texts[i].0 == a;
        var k :| 0 <= k < |texts[i].1.lines| && b in LineTargets(nodes, owner, a, texts[i].1.lines[k]);
        LineTargetIsEdge(texts, owner, a, texts[i].1.lines[k], b);
      }
    }
    forall a, b ensures Depends(texts, a, b) ==> b in Succ(edges, a) {
      if Depends(texts, a, b) {
        var i, k :| 0 <= i < |texts| && 0 <= k < |texts[i].1.lines| && texts[i].0 == a
                    && LineEdge(texts, a, texts[i].1.lines[k], b);
        LineTargetIsEdge(texts, owner, a, texts[i].1.lines[k], b);
      }
    }
  }

  lemma LineTargetIsEdge(texts: Texts, owner: map<string, Header>, a: Header, line: Line, b: Header)
    requires forall name, h :: (name in owner && owner[name] == h) <==> FirstDefiner(texts, name, h)
    ensures b in LineTargets(Nodes(texts), owner, a, line) <==> LineEdge(texts, a, line, b)
    ensures LineEdge(texts, a, line, b) ==> b in Nodes(texts)
  {
    if line.forwards.Some? {
      var n := line.forwards.value;
      assert n in owner && owner[n] == b <==> FirstDefiner(texts, n, b);
    }
  }

  // ----- the report --------------------------------------------------------

  /** Components of more than one header, in the order given. */
  function Large(sccs: seq<seq<Header>>): seq<seq<Header>> {
    if sccs == [] then []
    else
      var last := sccs[|sccs| - 1];
      Large(sccs[..|sccs| - 1]) + (if |last| > 1 then [last] else [])
  }

  ghost predicate Listed(r: seq<seq<Header>>, x: Header) {
    exists i :: 0 <= i < |r| && x in r[i]
  }

  ghost predicate HasPartner(e: Edges, x: Header) {
    exists y :: y != x && Mutual(e, x, y)
  }

  /** `r` lists every component of two or more headers, once, each before the
      listed components that depend on it; and nothing else. */
  ghost predicate IsReport(e: Edges, nodes: set<Header>, r: seq<seq<Header>>) {
    && (forall i :: 0 <= i < |r| ==> IsScc(e, r[i]) && |r[i]| > 1)
    && Disjoint(r)
    && (forall x :: Listed(r, x) <==> x in nodes && HasPartner(e, x))
    && (forall i, j, x, y :: 0 <= i < |r| && 0 <= j < |r| && x in r[i] && y in r[j] && y in Succ(e, x) ==> j <= i)
  }

  /** The positions in `sccs` of the components that `Large` keeps. */
  lemma {:induction false} LargeKeeps(sccs: seq<seq<Header>>) returns (at: seq<nat>)
    ensures |at| == |Large(sccs)|
    ensures forall i :: 0 <= i < |at| ==> at[i] < |sccs| && Large(sccs)[i] == sccs[at[i]] && |sccs[at[i]]| > 1
    ensures forall i, j :: 0 <= i < j < |at| ==> at[i] < at[j]
    ensures forall k :: 0 <= k < |sccs| && |sccs[k]| > 1 ==> k in at
  {
    if sccs == [] {
      return [];
    }
    var n := |sccs| - 1;
    var before := LargeKeeps(sccs[..n]);
    at := before + (if |sccs[n]| > 1 then [n] else []);
    forall k | 0 <= k < |sccs| && |sccs[k]| > 1 ensures k in at {
      if k < n { assert sccs[..n][k] == sccs[k]; }
    }
  }

  lemma PartnersShareLargeComponent(e: Edges, c: seq<Header>, x: Header)
    requires IsScc(e, c) && x in c
    ensures |c| > 1 <==> HasPartner(e, x)
  {
    if |c| > 1 {
      assert c[0] in c && c[1] in c;
      var y := if c[0] == x then c[1] else c[0];
      assert Mutual(e, x, y);
    }
    if y :| y != x && Mutual(e, x, y) {
      assert y in c;
    }
  }

  lemma LargeIsReport(e: Edges, nodes: set<Header>, sccs: seq<seq<Header>>)
    requires IsDecomposition(e, nodes, sccs)
    ensures IsReport(e, nodes, Large(sccs))
  {
    var r := Large(sccs);
    var at := LargeKeeps(sccs);
    forall x ensures Listed(r, x) <==> x in nodes && HasPartner(e, x) {
      if Listed(r, x) {
        var i :| 0 <= i < |r| && x in r[i];
        PartnersShareLargeComponent(e, sccs[at[i]], x);
      }
      if x in nodes && HasPartner(e, x) {
        var k :| 0 <= k < |sccs| && x in sccs[k];
        PartnersShareLargeComponent(e, sccs[k], x);
        assert k in at;
        var i :| 0 <= i < |at| && at[i] == k;
        assert x in r[i];
      }
    }
    forall i, j, x, y | 0 <= i < |r| && 0 <= j < |r| && x in r[i] && y in r[j] && y in Succ(e, x) ensures j <= i {
      assert ReportedUpTo(sccs, at[i], y);
      var k :| 0 <= k <= at[i] && k < |sccs| && y in sccs[k];
      assert y in sccs[at[j]] && k == at[j];
    }
  }

  /** The report is empty exactly when no cycle passes through two or more headers. */
  lemma EmptyReportMeansNoCycle(e: Edges, nodes: set<Header>, r: seq<seq<Header>>)
    requires IsReport(e, nodes, r)
    ensures r == [] <==> !HasCycle(e, nodes)
  {
    if r != [] {
      var x := r[0][0];
      assert x in r[0] && Listed(r, x);
      var y :| y != x && Mutual(e, x, y);
      var c := MutualPairGivesCycle(e, x, y);
    }
    if c :| IsCycle(e, c) && c[0] in nodes {
      CycleIsMutual(e, c, 0, 1);
      CycleIsMutual(e, c, 1, 0);
      assert Mutual(e, c[0], c[1]);
      assert Listed(r, c[0]);
    }
  }

  ghost function Elements(c: seq<Header>): set<Header> {
    set x | x in c
  }

  /** As a set of sets the report depends on the graph alone, not on the order
      in which headers and targets were visited. */
  lemma ReportIsDetermined(e: Edges, nodes: set<Header>, r: seq<seq<Header>>, r': seq<seq<Header>>)
    requires IsReport(e, nodes, r) && IsReport(e, nodes, r')
    ensures (set c | c in r :: Elements(c)) == (set c | c in r' :: Elements(c))
  {
    forall c | c in r ensures exists d :: d in r' && Elements(d) == Elements(c) {
      var d := SameComponent(e, nodes, r, r', c);
    }
    forall c | c in r' ensures exists d :: d in r && Elements(d) == Elements(c) {
      var d := SameComponent(e, nodes, r', r, c);
    }
  }

  lemma SameComponent(e: Edges, nodes: set<Header>, r: seq<seq<Header>>, r': seq<seq<Header>>, c: seq<Header>)
    returns (d: seq<Header>)
    requires IsReport(e, nodes, r) && IsReport(e, nodes, r') && c in r
    ensures d in r' && Elements(d) == Elements(c)
  {
    var i :| 0 <= i < |r| && r[i] == c;
    var x := c[0];
    assert x in r[i] && Listed(r, x) && Listed(r', x);
    var j :| 0 <= j < |r'| && x in r'[j];
    d := r'[j];
    forall y ensures y in c <==> y in d {
      if y in c { assert Mutual(e, x, y); }
      if y in d { assert Mutual(e, x, y); }
    }
  }

  // ----- the graph of a package --------------------------------------------

  ghost function GraphOf(texts: Texts): Edges {
    map a | a in Nodes(texts) :: set b | b in Nodes(texts) && Depends(texts, a, b)
  }

  lemma {:induction false} SameWalks(e: Edges, e': Edges, p: seq<Header>)
    requires forall a :: Succ(e, a) == Succ(e', a)
    ensures Walk(e, p) == Walk(e', p)
    decreases |p|
  {
    if |p| > 1 {
      SameWalks(e, e', p[1..]);
    }
  }

  lemma SameReach(e: Edges, e': Edges)
    requires forall a :: Succ(e, a) == Succ(e', a)
    ensures forall x, y :: Reach(e, x, y) == Reach(e', x, y)
  {
    forall p ensures Walk(e, p) == Walk(e', p) {
      SameWalks(e, e', p);
    }
    forall x, y ensures Reach(e, x, y) == Reach(e', x, y) {
      if p :| WalkBetween(e, p, x, y) { assert WalkBetween(e', p, x, y); }
      if p :| WalkBetween(e', p, x, y) { assert WalkBetween(e, p, x, y); }
    }
  }

  lemma SameReport(e: Edges, e': Edges, nodes: set<Header>, r: seq<seq<Header>>)
    requires forall a :: Succ(e, a) == Succ(e', a)
    requires IsReport(e, nodes, r)
    ensures IsReport(e', nodes, r)
  {
    SameReach(e, e');
    forall x, y ensures Mutual(e, x, y) == Mutual(e', x, y) {
    }
    forall x ensures HasPartner(e, x) == HasPartner(e', x) {
      if y :| y != x && Mutual(e, x, y) { assert Mutual(e', x, y); }
      if y :| y != x && Mutual(e', x, y) { assert Mutual(e, x, y); }
    }
    forall i | 0 <= i < |r| ensures IsScc(e', r[i]) {
      assert IsScc(e, r[i]);
    }
  }

  lemma GraphOfDepends(texts: Texts, edges: Edges)
    requires forall a, b :: b in Succ(edges, a) <==> Depends(texts, a, b)
    requires Closed(edges, Nodes(texts))
    ensures forall a :: Succ(edges, a) == Succ(GraphOf(texts), a)
  {
    forall a ensures Succ(edges, a) == Succ(GraphOf(texts), a) {
      if a in Nodes(texts) {
        assert forall b :: b in Succ(edges, a) ==> b in Nodes(texts);
      }
    }
  }

  /** The components of two or more headers of one package. `order` is the
      enumeration of the headers from which the pass is started. */
  method CheckPackage(texts: Texts, order: seq<Header>) returns (cycles: seq<seq<Header>>)
    requires OneTextEach(texts) && forall v :: v in order <==> v in Nodes(texts)
    ensures IsReport(GraphOf(texts), Nodes(texts), cycles)
    ensures cycles == [] <==> !HasCycle(GraphOf(texts), Nodes(texts))
  {
    var nodes := Nodes(texts);
    var owner := CollectOwners(texts);
    var edges := CollectEdges(texts, nodes, owner);
    EdgesAreDependencies(texts, owner, edges);
    var pass := new Pass(nodes, edges);
    pass.Run(order);
    cycles := KeepLarge(pass.sccs);
    LargeIsReport(edges, nodes, pass.sccs);
    GraphOfDepends(texts, edges);
    SameReport(edges, GraphOf(texts), nodes, cycles);
    EmptyReportMeansNoCycle(GraphOf(texts), nodes, cycles);
  }

  method KeepLarge(sccs: seq<seq<Header>>) returns (r: seq<seq<Header>>)
    ensures r == Large(sccs)
  {
    r := [];
    for k := 0 to |sccs|
      invariant r == Large(sccs[..k])
    {
      assert sccs[..k + 1][..k] == sccs[..k];
      if |sccs[k]| > 1 {
        r := r + [sccs[k]];
      }
    }
    assert sccs[..|sccs|] == sccs;
  }
}
