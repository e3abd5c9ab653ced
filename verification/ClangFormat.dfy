/** run-clang-format.py: the pruned directory walk and the exit code. */
module ClangFormat {

  // ----- directory trees ---------------------------------------------------

  datatype Dir = Dir(files: seq<string>, subs: seq<Sub>)
  datatype Sub = Sub(name: string, dir: Dir)

  /** A command-line argument: a plain path, or one that names a directory. */
  datatype Arg = File(path: string) | Directory(path: string, dir: Dir)

  /** fnmatch, os.path.splitext and the two option lists. */
  datatype Options = Options(
    matches: (string, string) -> bool,
    extension: string -> string,
    exclude: seq<string>,
    extensions: seq<string>)

  /** os.path.join for a relative second part. */
  function Join(dir: string, name: string): string {
    if dir == "" || dir[|dir| - 1] == '/' then dir + name else dir + "/" + name
  }

  // ----- specification: the unpruned walk, filtered ------------------------

  /** A file met on the full walk, with the directories below the root that lead to it. */
  datatype Found = Found(path: string, above: seq<string>)

  function FilesHere(path: string, names: seq<string>, above: seq<string>): seq<Found> {
    if names == [] then [] else [Found(Join(path, names[0]), above)] + FilesHere(path, names[1..], above)
  }

  /** Every file below a directory: its own first, then each subdirectory in turn. */
  function Everything(path: string, dir: Dir, above: seq<string>): seq<Found>
    decreases dir
  {
    FilesHere(path, dir.files, above) + EverythingIn(path, dir.subs, above)
  }

  function EverythingIn(path: string, subs: seq<Sub>, above: seq<string>): seq<Found>
    decreases subs
  {
    if subs == [] then []
    else
      var p := Join(path, subs[0].name);
      Everything(p, subs[0].dir, above + [p]) + EverythingIn(path, subs[1..], above)
  }

  /** `path` matches one of the first `n` exclude patterns. */
  predicate ExcludedBy(o: Options, path: string, n: nat)
    requires n <= |o.exclude|
  {
    exists k :: 0 <= k < n && o.matches(path, o.exclude[k])
  }

  predicate Excluded(o: Options, path: string) {
    ExcludedBy(o, path, |o.exclude|)
  }

  /** A file is wanted if it has a listed extension and neither it nor a
      directory above it, root excepted, matches an exclude pattern. */
  predicate Wanted(o: Options, f: Found) {
    && o.extension(f.path) in o.extensions
    && !Excluded(o, f.path)
    && forall k :: 0 <= k < |f.above| ==> !Excluded(o, f.above[k])
  }

  function Select(o: Options, fs: seq<Found>): seq<string> {
    if fs == [] then []
    else if Wanted(o, fs[0]) then [fs[0].path] + Select(o, fs[1..])
    else Select(o, fs[1..])
  }

  /** What `list_files` has to return. */
  function Listing(o: Options, recursive: bool, args: seq<Arg>): seq<string> {
    if args == [] then []
    else
      (if recursive && args[0].Directory? then Select(o, Everything(args[0].path, args[0].dir, [])) else [args[0].path])
      + Listing(o, recursive, args[1..])
  }

  // ----- the pruned walk as a function -------------------------------------

  function KeptPaths(o: Options, paths: seq<string>, n: nat): seq<string>
    requires n <= |o.exclude|
  {
    if paths == [] then []
    else if ExcludedBy(o, paths[0], n) then KeptPaths(o, paths[1..], n)
    else [paths[0]] + KeptPaths(o, paths[1..], n)
  }

  function KeptSubs(o: Options, path: string, subs: seq<Sub>, n: nat): seq<Sub>
    requires n <= |o.exclude|
  {
    if subs == [] then []
    else if ExcludedBy(o, Join(path, subs[0].name), n) then KeptSubs(o, path, subs[1..], n)
    else [subs[0]] + KeptSubs(o, path, subs[1..], n)
  }

  function WithExtension(o: Options, paths: seq<string>): seq<string> {
    if paths == [] then []
    else if o.extension(paths[0]) in o.extensions then [paths[0]] + WithExtension(o, paths[1..])
    else WithExtension(o, paths[1..])
  }

  function Paths(path: string, names: seq<string>): seq<string> {
    if names == [] then [] else [Join(path, names[0])] + Paths(path, names[1..])
  }

  function Pruned(o: Options, path: string, dir: Dir): seq<string>
    decreases dir
  {
    WithExtension(o, KeptPaths(o, Paths(path, dir.files), |o.exclude|)) + PrunedIn(o, path, dir.subs)
  }

  function PrunedIn(o: Options, path: string, subs: seq<Sub>): seq<string>
    decreases subs
  {
    if subs == [] then []
    else
      var p := Join(path, subs[0].name);
      if Excluded(o, p) then PrunedIn(o, path, subs[1..])
      else Pruned(o, p, subs[0].dir) + PrunedIn(o, path, subs[1..])
  }

  // ----- pruning loses nothing and keeps nothing else ----------------------

  lemma {:induction false} SelectConcat(o: Options, a: seq<Found>, b: seq<Found>)
    ensures Select(o, a + b) == Select(o, a) + Select(o, b)
  {
    if a == [] {
      assert a + b == b;
    } else {
      SelectConcat(o, a[1..], b);
      assert (a + b)[1..] == a[1..] + b;
    }
  }

  predicate Clear(o: Options, above: seq<string>) {
    forall k :: 0 <= k < |above| ==> !Excluded(o, above[k])
  }

  lemma {:induction false} SelectHere(o: Options, path: string, names: seq<string>, above: seq<string>)
    ensures Select(o, FilesHere(path, names, above))
         == if Clear(o, above) then WithExtension(o, KeptPaths(o, Paths(path, names), |o.exclude|)) else []
  {
    if names != [] {
      SelectHere(o, path, names[1..], above);
      var rest := Paths(path, names[1..]);
      assert Paths(path, names)[1..] == rest;
      assert FilesHere(path, names, above)[1..] == FilesHere(path, names[1..], above);
      assert ([Join(path, names[0])] + KeptPaths(o, rest, |o.exclude|))[1..] == KeptPaths(o, rest, |o.exclude|);
    }
  }

  lemma ClearSnoc(o: Options, above: seq<string>, p: string)
    ensures Clear(o, above + [p]) <==> Clear(o, above) && !Excluded(o, p)
  {
    if Clear(o, above + [p]) {
      forall k | 0 <= k < |above| ensures !Excluded(o, above[k]) {
        assert (above + [p])[k] == above[k];
      }
      assert (above + [p])[|above|] == p;
    }
  }

  /** The pruned walk equals the filtered full walk, on every tree. */
  lemma {:induction false} PruningIsFiltering(o: Options, path: string, dir: Dir, above: seq<string>)
    ensures Select(o, Everything(path, dir, above)) == if Clear(o, above) then Pruned(o, path, dir) else []
    decreases dir, 1
  {
    SelectHere(o, path, dir.files, above);
    PruningSubsIsFiltering(o, path, dir.subs, above);
    SelectConcat(o, FilesHere(path, dir.files, above), EverythingIn(path, dir.subs, above));
  }

  lemma {:induction false} PruningSubsIsFiltering(o: Options, path: string, subs: seq<Sub>, above: seq<string>)
    ensures Select(o, EverythingIn(path, subs, above)) == if Clear(o, above) then PrunedIn(o, path, subs) else []
    decreases subs, 0
  {
    if subs != [] {
      var p := Join(path, subs[0].name);
      PruningIsFiltering(o, p, subs[0].dir, above + [p]);
      PruningSubsIsFiltering(o, path, subs[1..], above);
      ClearSnoc(o, above, p);
      SelectConcat(o, Everything(p, subs[0].dir, above + [p]), EverythingIn(path, subs[1..], above));
    }
  }

  // ----- the walk loop -----------------------------------------------------

  datatype Visit = Visit(path: string, dir: Dir)

  function Visits(path: string, subs: seq<Sub>): seq<Visit> {
    if subs == [] then [] else [Visit(Join(path, subs[0].name), subs[0].dir)] + Visits(path, subs[1..])
  }

  /** What is still to be listed from the directories waiting on the walk. */
  function PrunedAll(o: Options, todo: seq<Visit>): seq<string> {
    if todo == [] then [] else Pruned(o, todo[0].path, todo[0].dir) + PrunedAll(o, todo[1..])
  }

  function Weight(dir: Dir): nat
    decreases dir
  {
    1 + WeightOfSubs(dir.subs)
  }

  function WeightOfSubs(subs: seq<Sub>): nat
    decreases subs
  {
    if subs == [] then 0 else Weight(subs[0].dir) + WeightOfSubs(subs[1..])
  }

  function WeightAll(todo: seq<Visit>): nat {
    if todo == [] then 0 else Weight(todo[0].dir) + WeightAll(todo[1..])
  }

  lemma {:induction false} PrunedAllConcat(o: Options, a: seq<Visit>, b: seq<Visit>)
    ensures PrunedAll(o, a + b) == PrunedAll(o, a) + PrunedAll(o, b)
    ensures WeightAll(a + b) == WeightAll(a) + WeightAll(b)
  {
    hide Pruned, Weight;
    if a == [] {
      assert a + b == b;
    } else {
      hide PrunedAll, WeightAll;
      PrunedAllConcat(o, a[1..], b);
      assert (a + b)[1..] == a[1..] + b && (a + b)[0] == a[0];
      FirstWaiting(o, a);
      FirstWaiting(o, a + b);
      assert Pruned(o, a[0].path, a[0].dir) + (PrunedAll(o, a[1..]) + PrunedAll(o, b))
          == (Pruned(o, a[0].path, a[0].dir) + PrunedAll(o, a[1..])) + PrunedAll(o, b);
    }
  }

  lemma {:induction false} KeptSubsAreVisited(o: Options, path: string, subs: seq<Sub>)
    ensures PrunedAll(o, Visits(path, KeptSubs(o, path, subs, |o.exclude|))) == PrunedIn(o, path, subs)
    ensures WeightAll(Visits(path, KeptSubs(o, path, subs, |o.exclude|))) <= WeightOfSubs(subs)
  {
    if subs != [] {
      KeptSubsAreVisited(o, path, subs[1..]);
      var kept := KeptSubs(o, path, subs, |o.exclude|);
      if !Excluded(o, Join(path, subs[0].name)) {
        assert kept[1..] == KeptSubs(o, path, subs[1..], |o.exclude|);
        assert Visits(path, kept)[1..] == Visits(path, kept[1..]);
      }
    }
  }

  /** The list comprehensions of the pattern loop. */
  function PathsNotMatching(o: Options, paths: seq<string>, pattern: string): seq<string> {
    if paths == [] then []
    else if o.matches(paths[0], pattern) then PathsNotMatching(o, paths[1..], pattern)
    else [paths[0]] + PathsNotMatching(o, paths[1..], pattern)
  }

  function SubsNotMatching(o: Options, path: string, subs: seq<Sub>, pattern: string): seq<Sub> {
    if subs == [] then []
    else if o.matches(Join(path, subs[0].name), pattern) then SubsNotMatching(o, path, subs[1..], pattern)
    else [subs[0]] + SubsNotMatching(o, path, subs[1..], pattern)
  }

  lemma OnePatternMore(o: Options, path: string, n: nat)
    requires n < |o.exclude|
    ensures ExcludedBy(o, path, n + 1) <==> ExcludedBy(o, path, n) || o.matches(path, o.exclude[n])
  {
  }

  lemma {:induction false} NextPatternPaths(o: Options, paths: seq<string>, n: nat)
    requires n < |o.exclude|
    ensures PathsNotMatching(o, KeptPaths(o, paths, n), o.exclude[n]) == KeptPaths(o, paths, n + 1)
  {
    hide ExcludedBy;
    if paths != [] {
      NextPatternPaths(o, paths[1..], n);
      OnePatternMore(o, paths[0], n);
      assert ([paths[0]] + KeptPaths(o, paths[1..], n))[1..] == KeptPaths(o, paths[1..], n);
    }
  }

  lemma {:induction false} NextPatternSubs(o: Options, path: string, subs: seq<Sub>, n: nat)
    requires n < |o.exclude|
    ensures SubsNotMatching(o, path, KeptSubs(o, path, subs, n), o.exclude[n]) == KeptSubs(o, path, subs, n + 1)
  {
    hide ExcludedBy;
    if subs != [] {
      NextPatternSubs(o, path, subs[1..], n);
      OnePatternMore(o, Join(path, subs[0].name), n);
      assert ([subs[0]] + KeptSubs(o, path, subs[1..], n))[1..] == KeptSubs(o, path, subs[1..], n);
    }
  }

  lemma {:induction false} NoPatternsKeepAll(o: Options, path: string, paths: seq<string>, subs: seq<Sub>)
    ensures KeptPaths(o, paths, 0) == paths && KeptSubs(o, path, subs, 0) == subs
    decreases |paths| + |subs|
  {
    if paths != [] {
      NoPatternsKeepAll(o, path, paths[1..], subs);
    } else if subs != [] {
      NoPatternsKeepAll(o, path, paths, subs[1..]);
    }
  }

  /** Trims both lists, one pattern after the other. */
  method Prune(o: Options, dirpath: string, subs: seq<Sub>, paths: seq<string>) returns (dnames: seq<Sub>, fpaths: seq<string>)
    ensures dnames == KeptSubs(o, dirpath, subs, |o.exclude|)
    ensures fpaths == KeptPaths(o, paths, |o.exclude|)
  {
    hide KeptSubs, KeptPaths;
    dnames, fpaths := subs, paths;
    NoPatternsKeepAll(o, dirpath, paths, subs);
    for k := 0 to |o.exclude|
      invariant dnames == KeptSubs(o, dirpath, subs, k)
      invariant fpaths == KeptPaths(o, paths, k)
    {
      NextPatternSubs(o, dirpath, subs, k);
      NextPatternPaths(o, paths, k);
      dnames := SubsNotMatching(o, dirpath, dnames, o.exclude[k]);
      fpaths := PathsNotMatching(o, fpaths, o.exclude[k]);
    }
  }

  lemma {:induction false} WithExtensionSnoc(o: Options, paths: seq<string>, p: string)
    ensures WithExtension(o, paths + [p])
         == WithExtension(o, paths) + (if o.extension(p) in o.extensions then [p] else [])
  {
    if paths == [] {
      assert paths + [p] == [p];
    } else {
      WithExtensionSnoc(o, paths[1..], p);
      assert (paths + [p])[1..] == paths[1..] + [p];
    }
  }

  method AppendWanted(o: Options, before: seq<string>, fpaths: seq<string>) returns (out: seq<string>)
    ensures out == before + WithExtension(o, fpaths)
  {
    out := before;
    for k := 0 to |fpaths|
      invariant out == before + WithExtension(o, fpaths[..k])
    {
      assert fpaths[..k + 1] == fpaths[..k] + [fpaths[k]];
      WithExtensionSnoc(o, fpaths[..k], fpaths[k]);
      if o.extension(fpaths[k]) in o.extensions {
        out := out + [fpaths[k]];
      }
    }
    assert fpaths[..|fpaths|] == fpaths;
  }

  /** The os.walk loop for one directory argument: top-down, descending only
      into the subdirectories left in the trimmed list. */
  method WalkDirectory(o: Options, before: seq<string>, path: string, dir: Dir) returns (out: seq<string>)
    ensures out == before + Select(o, Everything(path, dir, []))
  {
    hide Pruned, Weight, KeptSubs, KeptPaths, Select, Everything;
    out := before;
    var todo := [Visit(path, dir)];
    PruningIsFiltering(o, path, dir, []);
    assert Pruned(o, path, dir) == PrunedAll(o, todo) by {
      assert todo[1..] == [];
    }
    while todo != []
      invariant before + Pruned(o, path, dir) == out + PrunedAll(o, todo)
      decreases WeightAll(todo)
    {
      var here := todo[0];
      VisitSplits(o, todo);
      var dnames, fpaths := Prune(o, here.path, here.dir.subs, Paths(here.path, here.dir.files));
      out := AppendWanted(o, out, fpaths);
      todo := Visits(here.path, dnames) + todo[1..];
    }
  }

  /** Visiting the first waiting directory trades it for its kept subdirectories. */
  lemma VisitSplits(o: Options, todo: seq<Visit>)
    requires todo != []
    ensures var here := todo[0];
      var next := Visits(here.path, KeptSubs(o, here.path, here.dir.subs, |o.exclude|)) + todo[1..];
      && PrunedAll(o, todo)
         == WithExtension(o, KeptPaths(o, Paths(here.path, here.dir.files), |o.exclude|)) + PrunedAll(o, next)
      && WeightAll(next) < WeightAll(todo)
  {
    hide KeptSubs, KeptPaths, Pruned, PrunedIn, PrunedAll, Weight, WeightAll, WithExtension, Paths, Visits;
    var here, rest := todo[0], todo[1..];
    var kept := Visits(here.path, KeptSubs(o, here.path, here.dir.subs, |o.exclude|));
    KeptSubsAreVisited(o, here.path, here.dir.subs);
    PrunedAllConcat(o, kept, rest);
    FirstWaiting(o, todo);
    OneDirectory(o, here.path, here.dir);
    assert (WithExtension(o, KeptPaths(o, Paths(here.path, here.dir.files), |o.exclude|)) + PrunedAll(o, kept)) + PrunedAll(o, rest)
        == WithExtension(o, KeptPaths(o, Paths(here.path, here.dir.files), |o.exclude|)) + (PrunedAll(o, kept) + PrunedAll(o, rest));
  }

  lemma FirstWaiting(o: Options, todo: seq<Visit>)
    requires todo != []
    ensures PrunedAll(o, todo) == Pruned(o, todo[0].path, todo[0].dir) + PrunedAll(o, todo[1..])
    ensures WeightAll(todo) == Weight(todo[0].dir) + WeightAll(todo[1..])
  {
  }

  lemma OneDirectory(o: Options, path: string, dir: Dir)
    ensures Pruned(o, path, dir)
         == WithExtension(o, KeptPaths(o, Paths(path, dir.files), |o.exclude|)) + PrunedIn(o, path, dir.subs)
    ensures Weight(dir) == 1 + WeightOfSubs(dir.subs)
  {
  }

  /** What one argument contributes. */
  function ListingOf(o: Options, recursive: bool, arg: Arg): seq<string> {
    if recursive && arg.Directory? then Select(o, Everything(arg.path, arg.dir, [])) else [arg.path]
  }

  lemma FirstArgument(o: Options, recursive: bool, args: seq<Arg>, k: nat)
    requires k < |args|
    ensures Listing(o, recursive, args[k..]) == ListingOf(o, recursive, args[k]) + Listing(o, recursive, args[k + 1..])
  {
    hide Select, Everything;
    assert args[k..][1..] == args[k + 1..];
  }

  method ListFiles(o: Options, recursive: bool, args: seq<Arg>) returns (out: seq<string>)
    ensures out == Listing(o, recursive, args)
  {
    hide Select, Everything, Listing;
    out := [];
    assert args[0..] == args;
    for k := 0 to |args|
      invariant out + Listing(o, recursive, args[k..]) == Listing(o, recursive, args)
    {
      FirstArgument(o, recursive, args, k);
      ghost var before, rest := out, Listing(o, recursive, args[k + 1..]);
      if recursive && args[k].Directory? {
        out := WalkDirectory(o, out, args[k].path, args[k].dir);
      } else {
        out := out + [args[k].path];
      }
      assert (before + ListingOf(o, recursive, args[k])) + rest == before + (ListingOf(o, recursive, args[k]) + rest);
    }
    assert Listing(o, recursive, args[|args|..]) == [] by { NoArguments(o, recursive, args); }
  }

  lemma NoArguments(o: Options, recursive: bool, args: seq<Arg>)
    ensures Listing(o, recursive, args[|args|..]) == []
  {
  }

  // ----- exit code ---------------------------------------------------------

  const SUCCESS := 0
  const DIFF := 1
  const TROUBLE := 2

  /** What formatting one file comes to. */
  datatype Outcome = Clean | Differs | DiffError | UnexpectedError

  function Severity(x: Outcome): nat {
    match x
    case Clean => SUCCESS
    case Differs => DIFF
    case DiffError => TROUBLE
    case UnexpectedError => TROUBLE
  }

  function Worst(xs: seq<Outcome>): nat {
    if xs == [] then SUCCESS
    else
      var w := Worst(xs[..|xs| - 1]);
      if Severity(xs[|xs| - 1]) > w then Severity(xs[|xs| - 1]) else w
  }

  /** The result loop of `main`. Without a pool the results come from a
      generator, which is finished for good once an exception has left it. */
  method ExitCode(results: seq<Outcome>, pool: bool) returns (retcode: nat)
    ensures retcode == Worst(results)
    ensures retcode == 0 <==> forall x :: x in results ==> x.Clean?
    ensures retcode == 2 <==> exists x :: x in results && (x.DiffError? || x.UnexpectedError?)
    ensures retcode in {0, 1, 2}
  {
    CodeMeans(results);
    retcode := SUCCESS;
    var taken := 0;
    var generatorFinished := false;
    while true
      invariant 0 <= taken <= |results|
      invariant retcode == Worst(results[..taken]) <= TROUBLE
      invariant generatorFinished ==> retcode == TROUBLE
      decreases |results| - taken
    {
      if taken == |results| || generatorFinished {
        WorstOfPrefix(results, taken);
        break;
      }
      var x := results[taken];
      taken := taken + 1;
      assert results[..taken][..taken - 1] == results[..taken - 1];
      match x {
        case DiffError =>
          retcode := TROUBLE;
          generatorFinished := !pool;
        case UnexpectedError =>
          retcode := TROUBLE;
          WorstOfPrefix(results, taken);
          break;
        case Clean =>
        case Differs =>
          if retcode == SUCCESS { retcode := DIFF; }
      }
    }
  }

  lemma {:induction false} WorstBounds(xs: seq<Outcome>)
    ensures Worst(xs) <= TROUBLE
    ensures forall x :: x in xs ==> Severity(x) <= Worst(xs)
    ensures xs != [] ==> exists x :: x in xs && Severity(x) == Worst(xs)
  {
    if xs != [] {
      var n := |xs| - 1;
      WorstBounds(xs[..n]);
      assert xs == xs[..n] + [xs[n]];
      assert xs[n] in xs;
      if |xs| > 1 {
        var x :| x in xs[..n] && Severity(x) == Worst(xs[..n]);
        assert x in xs;
      }
    }
  }

  /** 0 says that no file differs, 2 that some file gave an error, and 1 that
      some file differs and none gave an error. */
  lemma CodeMeans(xs: seq<Outcome>)
    ensures Worst(xs) == 0 <==> forall x :: x in xs ==> x.Clean?
    ensures Worst(xs) == 2 <==> exists x :: x in xs && (x.DiffError? || x.UnexpectedError?)
    ensures Worst(xs) == 1 <==> Differs in xs && forall x :: x in xs ==> x.Clean? || x.Differs?
  {
    WorstBounds(xs);
    assert forall x :: x in xs ==> Severity(x) <= Worst(xs);
    if xs == [] { assert Worst(xs) == 0; }
  }

  /** Once trouble is on record, later results cannot change the code. */
  lemma {:induction false} WorstOfPrefix(xs: seq<Outcome>, k: nat)
    requires k <= |xs|
    ensures k == |xs| || Worst(xs[..k]) == TROUBLE ==> Worst(xs) == Worst(xs[..k])
    decreases |xs| - k
  {
    if k == |xs| {
      assert xs[..k] == xs;
    } else {
      assert xs[..k + 1][..k] == xs[..k];
      WorstOfPrefix(xs, k + 1);
    }
  }

  /** The code is the greatest severity over the files, whatever the order of arrival. */
  lemma ArrivalOrderIrrelevant(xs: seq<Outcome>, ys: seq<Outcome>)
    requires multiset(xs) == multiset(ys)
    ensures Worst(xs) == Worst(ys)
  {
    assert forall x :: x in xs <==> x in multiset(xs);
    assert forall x :: x in ys <==> x in multiset(ys);
    WorstBounds(xs);
    WorstBounds(ys);
    assert |xs| == |multiset(xs)| == |multiset(ys)| == |ys|;
  }
}
