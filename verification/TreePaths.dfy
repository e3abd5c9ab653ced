/** What the paths are that the formatter lists for a directory: they lead, name
    by name, to the wanted files of the tree, and no path is listed twice. */
module TreePaths {
  import opened Strings
  import opened ClangFormat

  // ----- names, paths and trees --------------------------------------------

  predicate IsName(s: string) { s != "" && '/' !in s }

  /** A directory path without a trailing slash. */
  predicate IsRoot(s: string) { s != "" && s[|s| - 1] != '/' }

  /** The path below `root` with the given names. */
  function Under(root: string, names: seq<string>): string
    decreases |names|
  {
    if names == [] then root else Under(root + "/" + names[0], names[1..])
  }

  /** The parts of a string between slashes. */
  function Split(s: string): (r: seq<string>)
    decreases |s|
  {
    var k := FirstOf(s, '/', 0);
    if k == -1 then [s] else [s[..k]] + Split(s[k + 1..])
  }

  /** Looking up one name after the other ends at a file. */
  ghost predicate LeadsToFile(dir: Dir, names: seq<string>)
    decreases |names|
  {
    if |names| == 1 then names[0] in dir.files else LeadsBelow(dir.subs, names)
  }

  ghost predicate LeadsBelow(subs: seq<Sub>, names: seq<string>)
    decreases |names|, 0
  {
    |names| >= 2 && exists s :: s in subs && s.name == names[0] && LeadsToFile(s.dir, names[1..])
  }

  /** Names as a file system has them: proper, and different in one directory. */
  predicate WellNamed(dir: Dir)
    decreases dir
  {
    && (forall k :: 0 <= k < |dir.files| ==> IsName(dir.files[k]))
    && (forall j, k :: 0 <= j < k < |dir.files| ==> dir.files[j] != dir.files[k])
    && (forall k :: 0 <= k < |dir.subs| ==> dir.subs[k].name !in dir.files)
    && WellNamedSubs(dir.subs)
  }

  predicate WellNamedSubs(subs: seq<Sub>)
    decreases subs
  {
    subs == [] || (
      && IsName(subs[0].name) && WellNamed(subs[0].dir)
      && (forall k :: 1 <= k < |subs| ==> subs[k].name != subs[0].name)
      && WellNamedSubs(subs[1..]))
  }

  // ----- paths and names determine each other ------------------------------

  function Text(names: seq<string>): string
    requires names != []
  {
    if |names| == 1 then names[0] else names[0] + "/" + Text(names[1..])
  }

  lemma {:induction false} UnderIsText(root: string, names: seq<string>)
    requires names != []
    ensures Under(root, names) == root + "/" + Text(names)
    decreases |names|
  {
    if |names| == 1 {
      assert names[1..] == [];
    } else {
      UnderIsText(root + "/" + names[0], names[1..]);
    }
  }

  lemma SplitFirst(name: string, rest: string)
    requires '/' !in name
    ensures Split(name) == [name]
    ensures Split(name + "/" + rest) == [name] + Split(rest)
  {
    var s := name + "/" + rest;
    assert s[|name|] == '/';
    assert forall k :: 0 <= k < |name| ==> s[k] == name[k];
    assert s[..|name|] == name && s[|name| + 1..] == rest;
  }

  lemma {:induction false} SplitText(names: seq<string>)
    requires names != [] && forall k :: 0 <= k < |names| ==> IsName(names[k])
    ensures Split(Text(names)) == names
    decreases |names|
  {
    hide Split;
    if |names| == 1 {
      SplitFirst(names[0], "");
    } else {
      SplitText(names[1..]);
      SplitFirst(names[0], Text(names[1..]));
      assert [names[0]] + names[1..] == names;
    }
  }

  /** Cutting the path below the root at its slashes gives the names back. */
  lemma PathSplits(root: string, names: seq<string>)
    requires names != [] && forall k :: 0 <= k < |names| ==> IsName(names[k])
    ensures var p := Under(root, names);
      |p| > |root| && p[..|root| + 1] == root + "/" && Split(p[|root| + 1..]) == names
  {
    hide Split, Text;
    UnderIsText(root, names);
    SplitText(names);
    assert Under(root, names)[|root| + 1..] == Text(names);
  }

  // ----- the full walk -----------------------------------------------------

  function Ancestors(root: string, names: seq<string>): seq<string>
    decreases |names|
  {
    if |names| <= 1 then [] else [root + "/" + names[0]] + Ancestors(root + "/" + names[0], names[1..])
  }

  function At(root: string, names: seq<string>, above: seq<string>): Found {
    Found(Under(root, names), above + Ancestors(root, names))
  }

  lemma JoinNames(root: string, name: string)
    requires IsRoot(root) && IsName(name)
    ensures Join(root, name) == root + "/" + name && IsRoot(root + "/" + name)
  {
    assert name[|name| - 1] in name;
  }

  lemma OneName(root: string, name: string, above: seq<string>)
    ensures At(root, [name], above) == Found(root + "/" + name, above)
  {
    assert Under(root, [name]) == Under(root + "/" + name, [name][1..]) && [name][1..] == [];
    assert Ancestors(root, [name]) == [] && above + [] == above;
  }

  lemma NextName(root: string, names: seq<string>, above: seq<string>)
    requires |names| >= 2
    ensures At(root, names, above) == At(root + "/" + names[0], names[1..], above + [root + "/" + names[0]])
  {
    assert above + ([root + "/" + names[0]] + Ancestors(root + "/" + names[0], names[1..]))
        == above + [root + "/" + names[0]] + Ancestors(root + "/" + names[0], names[1..]);
  }

  lemma {:induction false} FilesAt(root: string, files: seq<string>, above: seq<string>, f: Found)
    requires IsRoot(root) && forall k :: 0 <= k < |files| ==> IsName(files[k])
    ensures f in FilesHere(root, files, above) <==> exists n :: n in files && f == Found(root + "/" + n, above)
  {
    if files != [] {
      FilesAt(root, files[1..], above, f);
      JoinNames(root, files[0]);
      assert forall n :: n in files <==> n == files[0] || n in files[1..];
      assert FilesHere(root, files, above) == [Found(root + "/" + files[0], above)] + FilesHere(root, files[1..], above);
    }
  }

  /** The walk meets exactly what looking up names finds. */
  lemma {:induction false} MeetsExactly(root: string, dir: Dir, above: seq<string>, f: Found)
    requires IsRoot(root) && WellNamed(dir)
    ensures f in Everything(root, dir, above) <==> exists names :: LeadsToFile(dir, names) && f == At(root, names, above)
    decreases dir, 1
  {
    hide FilesHere, EverythingIn, Under, Ancestors, At, IsName, IsRoot;
    FilesAt(root, dir.files, above, f);
    MeetsBelow(root, dir.subs, above, f);
    if f in FilesHere(root, dir.files, above) {
      var n :| n in dir.files && f == Found(root + "/" + n, above);
      OneName(root, n, above);
      assert LeadsToFile(dir, [n]);
    }
    if f in EverythingIn(root, dir.subs, above) {
      var names :| LeadsBelow(dir.subs, names) && f == At(root, names, above);
      assert LeadsToFile(dir, names);
    }
    if names :| LeadsToFile(dir, names) && f == At(root, names, above) {
      if |names| == 1 {
        OneName(root, names[0], above);
        assert names == [names[0]];
      }
    }
  }

  lemma {:induction false} MeetsBelow(root: string, subs: seq<Sub>, above: seq<string>, f: Found)
    requires IsRoot(root) && WellNamedSubs(subs)
    ensures f in EverythingIn(root, subs, above) <==> exists names :: LeadsBelow(subs, names) && f == At(root, names, above)
    decreases subs, 0
  {
    hide Everything, Under, Ancestors, At, LeadsToFile;
    if subs != [] {
      var p := root + "/" + subs[0].name;
      JoinNames(root, subs[0].name);
      MeetsExactly(p, subs[0].dir, above + [p], f);
      MeetsBelow(root, subs[1..], above, f);
      if f in Everything(p, subs[0].dir, above + [p]) {
        var rest :| LeadsToFile(subs[0].dir, rest) && f == At(p, rest, above + [p]);
        NonEmpty(subs[0].dir, rest);
        var names := [subs[0].name] + rest;
        assert names[1..] == rest;
        NextName(root, names, above);
        assert LeadsBelow(subs, names);
      }
      if f in EverythingIn(root, subs[1..], above) {
        var names :| LeadsBelow(subs[1..], names) && f == At(root, names, above);
        assert LeadsBelow(subs, names);
      }
      if names :| LeadsBelow(subs, names) && f == At(root, names, above) {
        var s :| s in subs && s.name == names[0] && LeadsToFile(s.dir, names[1..]);
        if s == subs[0] {
          NextName(root, names, above);
        } else {
          assert s in subs[1..];
          assert LeadsBelow(subs[1..], names);
        }
      }
    }
  }

  lemma NonEmpty(dir: Dir, names: seq<string>)
    requires LeadsToFile(dir, names)
    ensures names != []
  {
  }

  // ----- what is listed ----------------------------------------------------

  lemma {:induction false} SelectedAre(o: Options, fs: seq<Found>, p: string)
    ensures p in Select(o, fs) <==> exists f :: f in fs && Wanted(o, f) && f.path == p
  {
    hide Wanted;
    if fs != [] {
      SelectedAre(o, fs[1..], p);
      assert forall f :: f in fs <==> f == fs[0] || f in fs[1..];
    }
  }

  lemma {:induction false} AncestorAt(root: string, names: seq<string>, m: nat)
    requires 0 < m < |names|
    ensures m - 1 < |Ancestors(root, names)| && Ancestors(root, names)[m - 1] == Under(root, names[..m])
    decreases m
  {
    assert names[..m][1..] == names[1..][..m - 1];
    if m > 1 { AncestorAt(root + "/" + names[0], names[1..], m - 1); }
  }

  lemma {:induction false} AncestorCount(root: string, names: seq<string>)
    ensures |Ancestors(root, names)| == if names == [] then 0 else |names| - 1
    decreases |names|
  {
    if |names| > 1 { AncestorCount(root + "/" + names[0], names[1..]); }
  }

  /** The file is wanted: by its extension, and because neither its path nor
      that of a directory between it and the root is excluded. */
  predicate WantedAt(o: Options, root: string, names: seq<string>) {
    && o.extension(Under(root, names)) in o.extensions
    && forall m :: 0 < m <= |names| ==> !Excluded(o, Under(root, names[..m]))
  }

  lemma WantedIsWantedAt(o: Options, root: string, names: seq<string>)
    requires names != []
    ensures Wanted(o, At(root, names, [])) <==> WantedAt(o, root, names)
  {
    hide Excluded, Under, Ancestors;
    var f := At(root, names, []);
    AncestorCount(root, names);
    assert names[..|names|] == names;
    assert f.above == Ancestors(root, names);
    forall m: nat | 0 < m < |names| ensures f.above[m - 1] == Under(root, names[..m]) { AncestorAt(root, names, m); }
    if Wanted(o, f) {
      forall m | 0 < m <= |names| ensures !Excluded(o, Under(root, names[..m])) {
        if m < |names| { assert f.above[m - 1] == Under(root, names[..m]); }
      }
    }
    if WantedAt(o, root, names) {
      forall k | 0 <= k < |f.above| ensures !Excluded(o, f.above[k]) {
        assert f.above[(k + 1) - 1] == Under(root, names[..k + 1]);
      }
    }
  }

  /** For a directory argument, a path is listed if and only if it is the root
      followed by names that lead to a wanted file of the tree. */
  lemma ListedExactly(o: Options, root: string, dir: Dir, p: string)
    requires IsRoot(root) && WellNamed(dir)
    ensures p in Listing(o, true, [Directory(root, dir)])
       <==> exists names :: LeadsToFile(dir, names) && p == Under(root, names) && WantedAt(o, root, names)
  {
    hide Select, Everything, Wanted, WantedAt, LeadsToFile, WellNamed, Under;
    OneArgument(o, root, dir);
    var fs := Everything(root, dir, []);
    SelectedAre(o, fs, p);
    if p in Select(o, fs) {
      var f :| f in fs && Wanted(o, f) && f.path == p;
      MeetsExactly(root, dir, [], f);
      var names :| LeadsToFile(dir, names) && f == At(root, names, []);
      LeadsSomewhere(dir, names);
      WantedIsWantedAt(o, root, names);
    }
    if names :| LeadsToFile(dir, names) && p == Under(root, names) && WantedAt(o, root, names) {
      LeadsSomewhere(dir, names);
      MeetsExactly(root, dir, [], At(root, names, []));
      WantedIsWantedAt(o, root, names);
    }
  }

  lemma OneArgument(o: Options, root: string, dir: Dir)
    ensures Listing(o, true, [Directory(root, dir)]) == Select(o, Everything(root, dir, []))
  {
    hide Select, Everything;
    assert [Directory(root, dir)][1..] == [];
  }

  lemma LeadsSomewhere(dir: Dir, names: seq<string>)
    requires LeadsToFile(dir, names)
    ensures names != []
  {
  }

  /** Names that lead to a file are proper names. */
  lemma {:induction false} NamesAreProper(dir: Dir, names: seq<string>)
    requires WellNamed(dir) && LeadsToFile(dir, names)
    ensures names != [] && forall k :: 0 <= k < |names| ==> IsName(names[k])
    decreases |names|
  {
    hide IsName;
    if |names| == 1 {
      var k :| 0 <= k < |dir.files| && dir.files[k] == names[0];
    } else {
      var s :| s in dir.subs && s.name == names[0] && LeadsToFile(s.dir, names[1..]);
      SubIsProper(dir.subs, s);
      NamesAreProper(s.dir, names[1..]);
      assert forall k :: 0 < k < |names| ==> names[k] == names[1..][k - 1];
    }
  }

  lemma {:induction false} SubIsProper(subs: seq<Sub>, s: Sub)
    requires WellNamedSubs(subs) && s in subs
    ensures IsName(s.name) && WellNamed(s.dir)
  {
    hide IsName, WellNamed;
    if s != subs[0] {
      assert s in subs[1..];
      SubIsProper(subs[1..], s);
    }
  }

  /** Every listed path is the root, a slash, and names between slashes that
      lead to a file of the tree. */
  lemma ListedPathsLead(o: Options, root: string, dir: Dir, p: string)
    requires IsRoot(root) && WellNamed(dir) && p in Listing(o, true, [Directory(root, dir)])
    ensures |p| > |root| && p[..|root| + 1] == root + "/" && LeadsToFile(dir, Split(p[|root| + 1..]))
  {
    hide Listing, Split, LeadsToFile, WellNamed, Under, WantedAt;
    ListedExactly(o, root, dir, p);
    var names :| LeadsToFile(dir, names) && p == Under(root, names) && WantedAt(o, root, names);
    NamesAreProper(dir, names);
    PathSplits(root, names);
  }

  // ----- each once ---------------------------------------------------------

  ghost predicate Unique(fs: seq<Found>) {
    forall j, k :: 0 <= j < k < |fs| ==> fs[j].path != fs[k].path
  }

  lemma UniqueConcat(a: seq<Found>, b: seq<Found>)
    requires Unique(a) && Unique(b) && forall f, g :: f in a && g in b ==> f.path != g.path
    ensures Unique(a + b)
  {
    forall j, k | 0 <= j < k < |a + b| ensures (a + b)[j].path != (a + b)[k].path {
      if j < |a| && k >= |a| { assert a[j] in a && b[k - |a|] in b; }
    }
  }

  lemma {:induction false} FilesUnique(root: string, files: seq<string>, above: seq<string>)
    requires IsRoot(root) && forall k :: 0 <= k < |files| ==> IsName(files[k])
    requires forall j, k :: 0 <= j < k < |files| ==> files[j] != files[k]
    ensures Unique(FilesHere(root, files, above))
  {
    if files != [] {
      var first, rest := Found(root + "/" + files[0], above), FilesHere(root, files[1..], above);
      FilesUnique(root, files[1..], above);
      JoinNames(root, files[0]);
      forall g | g in rest ensures first.path != g.path {
        FilesAt(root, files[1..], above, g);
        var n :| n in files[1..] && g == Found(root + "/" + n, above);
        var k :| 0 <= k < |files[1..]| && files[1..][k] == n;
        assert files[k + 1] == n;
        assert first.path[|root| + 1..] == files[0] && g.path[|root| + 1..] == n;
      }
      UniqueConcat([first], rest);
      assert FilesHere(root, files, above) == [first] + rest;
    }
  }

  /** Different names make different paths. */
  lemma NamesFromPath(root: string, a: seq<string>, b: seq<string>)
    requires a != [] && b != [] && Under(root, a) == Under(root, b)
    requires forall k :: 0 <= k < |a| ==> IsName(a[k])
    requires forall k :: 0 <= k < |b| ==> IsName(b[k])
    ensures a == b
  {
    hide Split, Under;
    PathSplits(root, a);
    PathSplits(root, b);
  }

  lemma BelowIsProper(subs: seq<Sub>, names: seq<string>)
    requires WellNamedSubs(subs) && LeadsBelow(subs, names)
    ensures |names| >= 2 && forall k :: 0 <= k < |names| ==> IsName(names[k])
  {
    hide WellNamedSubs, LeadsToFile, IsName, WellNamed;
    var s :| s in subs && s.name == names[0] && LeadsToFile(s.dir, names[1..]);
    SubIsProper(subs, s);
    NamesAreProper(s.dir, names[1..]);
    assert forall k :: 0 < k < |names| ==> names[k] == names[1..][k - 1];
  }

  lemma {:induction false} WalkUnique(root: string, dir: Dir, above: seq<string>)
    requires IsRoot(root) && WellNamed(dir)
    ensures Unique(Everything(root, dir, above))
    decreases dir, 1
  {
    hide FilesHere, EverythingIn, Unique, Under, Ancestors, LeadsBelow, IsName, IsRoot;
    FilesUnique(root, dir.files, above);
    BelowUnique(root, dir.subs, above);
    forall f, g | f in FilesHere(root, dir.files, above) && g in EverythingIn(root, dir.subs, above) ensures f.path != g.path {
      FilesAt(root, dir.files, above, f);
      var n :| n in dir.files && f == Found(root + "/" + n, above);
      OneName(root, n, above);
      MeetsBelow(root, dir.subs, above, g);
      var names :| LeadsBelow(dir.subs, names) && g == At(root, names, above);
      BelowIsProper(dir.subs, names);
      if f.path == g.path { NamesFromPath(root, [n], names); }
    }
    UniqueConcat(FilesHere(root, dir.files, above), EverythingIn(root, dir.subs, above));
  }

  lemma {:induction false} BelowUnique(root: string, subs: seq<Sub>, above: seq<string>)
    requires IsRoot(root) && WellNamedSubs(subs)
    ensures Unique(EverythingIn(root, subs, above))
    decreases subs, 0
  {
    hide Everything, Under, Ancestors, LeadsToFile, IsName, WellNamed, Unique;
    if subs == [] {
      assert Unique([]) by { NothingUnique(); }
    } else {
      var p, rest := root + "/" + subs[0].name, subs[1..];
      JoinNames(root, subs[0].name);
      WalkUnique(p, subs[0].dir, above + [p]);
      BelowUnique(root, rest, above);
      forall f, g | f in Everything(p, subs[0].dir, above + [p]) && g in EverythingIn(root, rest, above) ensures f.path != g.path {
        MeetsExactly(p, subs[0].dir, above + [p], f);
        var a :| LeadsToFile(subs[0].dir, a) && f == At(p, a, above + [p]);
        NamesAreProper(subs[0].dir, a);
        var names := [subs[0].name] + a;
        assert names[1..] == a;
        NextName(root, names, above);
        MeetsBelow(root, rest, above, g);
        var b :| LeadsBelow(rest, b) && g == At(root, b, above);
        BelowIsProper(rest, b);
        var s :| s in rest && s.name == b[0];
        if f.path == g.path { NamesFromPath(root, names, b); }
      }
      UniqueConcat(Everything(p, subs[0].dir, above + [p]), EverythingIn(root, rest, above));
    }
  }

  lemma NothingUnique()
    ensures Unique([])
  {
  }

  lemma {:induction false} SelectUnique(o: Options, fs: seq<Found>)
    requires Unique(fs)
    ensures forall j, k :: 0 <= j < k < |Select(o, fs)| ==> Select(o, fs)[j] != Select(o, fs)[k]
  {
    hide Wanted;
    if fs != [] {
      SelectUnique(o, fs[1..]);
      if Wanted(o, fs[0]) {
        SelectedAre(o, fs[1..], fs[0].path);
        forall f | f in fs[1..] ensures f.path != fs[0].path {
          var k :| 0 <= k < |fs[1..]| && fs[1..][k] == f;
          assert fs[0].path != fs[k + 1].path;
        }
      }
    }
  }

  /** No path is listed twice for one directory. */
  lemma NoPathTwice(o: Options, root: string, dir: Dir)
    requires IsRoot(root) && WellNamed(dir)
    ensures var out := Listing(o, true, [Directory(root, dir)]);
      forall j, k :: 0 <= j < k < |out| ==> out[j] != out[k]
  {
    hide Select, Everything, Unique;
    OneArgument(o, root, dir);
    WalkUnique(root, dir, []);
    SelectUnique(o, Everything(root, dir, []));
  }

  // ----- arguments ---------------------------------------------------------

  /** A plain path is listed as it is, and so is a directory without -r. */
  lemma PlainArguments(o: Options, recursive: bool, path: string, dir: Dir)
    ensures Listing(o, recursive, [File(path)]) == [path]
    ensures Listing(o, false, [Directory(path, dir)]) == [path]
  {
    hide Select, Everything;
    assert [File(path)][1..] == [] && [Directory(path, dir)][1..] == [];
  }

  lemma FirstThenRest(o: Options, recursive: bool, args: seq<Arg>)
    requires args != []
    ensures Listing(o, recursive, args) == ListingOf(o, recursive, args[0]) + Listing(o, recursive, args[1..])
    ensures Listing(o, recursive, []) == []
  {
    hide Select, Everything;
  }

  /** Arguments are listed one after the other. */
  lemma {:induction false} ArgumentsInOrder(o: Options, recursive: bool, a: seq<Arg>, b: seq<Arg>)
    ensures Listing(o, recursive, a + b) == Listing(o, recursive, a) + Listing(o, recursive, b)
  {
    hide Listing, ListingOf, Select, Everything;
    if a == [] {
      FirstThenRest(o, recursive, [File("")]);
      assert a + b == b && [] + Listing(o, recursive, b) == Listing(o, recursive, b);
    } else {
      ArgumentsInOrder(o, recursive, a[1..], b);
      FirstThenRest(o, recursive, a);
      FirstThenRest(o, recursive, a + b);
      assert (a + b)[0] == a[0] && (a + b)[1..] == a[1..] + b;
      var x, y, z := ListingOf(o, recursive, a[0]), Listing(o, recursive, a[1..]), Listing(o, recursive, b);
      assert x + (y + z) == (x + y) + z;
    }
  }
}
