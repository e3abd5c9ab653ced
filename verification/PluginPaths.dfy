/** Path and parameter handling of the protoc plugin (PluginCodeGenerator.hpp). */
module PluginPaths {
  import opened Strings

  const SLASHES := {'/', '\\'}

  function Basename(path: string): string {
    path[LastOf(path, SLASHES) + 1..]
  }

  function StripExtension(name: string): string {
    var dot := LastOf(name, {'.'});
    if dot == -1 then name else name[..dot]
  }

  /** `getFilenameWithoutExtension`: basename first, extension second. */
  function FilenameWithoutExtension(path: string): string {
    StripExtension(Basename(path))
  }

  /** `getPathWithoutExtension`: a dot inside a directory name does not count. */
  function PathWithoutExtension(path: string): string {
    var dot := LastOf(path, {'.'});
    var slash := LastOf(path, SLASHES);
    if dot == -1 || (slash != -1 && dot < slash) then path else path[..dot]
  }

  /** The module file name and the message header name agree on the base name:
      stripping the extension and taking the basename commute on every path. */
  lemma StripAndBasenameCommute(path: string)
    ensures Basename(PathWithoutExtension(path)) == FilenameWithoutExtension(path)
  {
    hide LastOf;
    var dot := LastOf(path, {'.'});
    var slash := LastOf(path, SLASHES);
    DotIsNoSlash(path);
    LastOfDrop(path, {'.'}, slash + 1);
    if dot > slash {
      LastOfTake(path, SLASHES, dot);
      assert path[..dot][slash + 1..] == path[slash + 1..][..dot - slash - 1];
    }
  }

  /** On an ordinary path: directories, a name, and an extension. */
  lemma OrdinaryPath(dirs: string, slash: char, name: string, ext: string)
    requires slash == '/' || slash == '\\'
    requires forall k :: 0 <= k < |name| ==> name[k] != '/' && name[k] != '\\'
    requires forall k :: 0 <= k < |ext| ==> ext[k] != '/' && ext[k] != '\\' && ext[k] != '.'
    ensures var path := dirs + [slash] + name + "." + ext;
      FilenameWithoutExtension(path) == name && PathWithoutExtension(path) == dirs + [slash] + name
  {
    hide LastOf;
    var file := name + "." + ext;
    var path := dirs + [slash] + name + "." + ext;
    assert path == dirs + [slash] + file;
    forall k | 0 <= k < |file| ensures file[k] !in SLASHES {
      if k > |name| { assert file[k] == ext[k - |name| - 1]; }
    }
    LastOfConcat(dirs, slash, file, SLASHES);
    assert path[|dirs| + 1..] == file;
    LastOfConcat(name, '.', ext, {'.'});
    assert file[..|name|] == name;
    assert path == (dirs + [slash] + name) + ['.'] + ext;
    LastOfConcat(dirs + [slash] + name, '.', ext, {'.'});
    assert path[..|dirs| + 1 + |name|] == dirs + [slash] + name;
  }

  lemma DotIsNoSlash(path: string)
    ensures LastOf(path, {'.'}) != LastOf(path, SLASHES) || LastOf(path, SLASHES) == -1
  {
    hide LastOf;
    var dot := LastOf(path, {'.'});
    if dot >= 0 {
      assert path[dot] == '.';
      assert '.' !in SLASHES;
    }
  }

  // ----- the module_prefix parameter ---------------------------------------

  const KEY := "module_prefix="

  predicate OccursAt(s: string, key: string, i: nat) {
    i + |key| <= |s| && s[i..i + |key|] == key
  }

  ghost predicate Contains(s: string, key: string) {
    exists i :: OccursAt(s, key, i)
  }

  /** `find`: the first occurrence at or after `from`, or -1. */
  function Find(s: string, key: string, from: nat): (r: int)
    ensures r == -1 || (r >= from && OccursAt(s, key, r))
    ensures forall i :: from <= i < (if r == -1 then |s| + 1 else r) ==> !OccursAt(s, key, i)
    decreases |s| + 1 - from
  {
    if from + |key| > |s| then -1
    else if OccursAt(s, key, from) then from
    else Find(s, key, from + 1)
  }

  /** The prefix, and whether an error message was set. */
  function ModulePrefix(parameter: string): (string, bool) {
    var pos := Find(parameter, KEY, 0);
    if pos == -1 then ("", true)
    else
      var start := pos + |KEY|;
      var end := FirstOf(parameter, ',', start);
      (if end == -1 then parameter[start..] else parameter[start..end], false)
  }

  /** 'm' occurs in the key at its beginning only, so an occurrence that starts
      before the key cannot run into it. */
  lemma FirstOccurrence(pre: string, rest: string)
    requires !Contains(pre, KEY)
    ensures Find(pre + KEY + rest, KEY, 0) == |pre|
  {
    hide Find;
    var s := pre + KEY + rest;
    assert s[|pre|..|pre| + |KEY|] == KEY;
    assert OccursAt(s, KEY, |pre|);
    assert s[|pre|] == KEY[0];
    assert forall j :: 0 < j < |KEY| ==> KEY[j] != KEY[0];
    forall i: nat | i < |pre| ensures !OccursAt(s, KEY, i) {
      if i + |KEY| <= |pre| {
        assert !OccursAt(pre, KEY, i);
        assert pre[i..i + |KEY|] == s[i..i + |KEY|];
      } else if i + |KEY| <= |s| {
        assert s[i..i + |KEY|][|pre| - i] == s[|pre|];
      }
    }
  }

  lemma PrefixIsExactlyTheValue(pre: string, v: string, tail: string)
    requires !Contains(pre, KEY) && ',' !in v && (tail == "" || tail[0] == ',')
    ensures ModulePrefix(pre + KEY + v + tail) == (v, false)
  {
    hide Find, FirstOf;
    var s := pre + KEY + v + tail;
    assert s == pre + KEY + (v + tail);
    FirstOccurrence(pre, v + tail);
    var start := |pre| + |KEY|;
    assert s[start..] == v + tail;
    forall k | start <= k < start + |v| ensures s[k] != ',' {
      assert s[k] == v[k - start];
    }
    assert s[start..start + |v|] == v;
    if tail == "" {
      assert v + tail == v;
      assert FirstOf(s, ',', start) == -1;
    } else {
      assert s[start + |v|] == ',';
      assert FirstOf(s, ',', start) == start + |v|;
    }
  }

  /** `Generate` refuses an empty prefix. It does so without an error message
      exactly when the key is given with an empty value. */
  lemma SilentFailure(parameter: string)
    ensures var pos := Find(parameter, KEY, 0);
      (ModulePrefix(parameter).0 == "" && !ModulePrefix(parameter).1)
      <==> (pos >= 0 && (pos + |KEY| == |parameter| || parameter[pos + |KEY|] == ','))
    ensures ModulePrefix(parameter).1 <==> !Contains(parameter, KEY)
  {
    hide Find;
    var pos := Find(parameter, KEY, 0);
    if pos == -1 {
      forall i: nat ensures !OccursAt(parameter, KEY, i) {
      }
    }
  }

  /** The documented parameter. */
  lemma DocumentedParameter()
    ensures ModulePrefix("module_prefix=streamr.dht") == ("streamr.dht", false)
  {
    hide Find, FirstOf;
    assert "module_prefix=streamr.dht" == "" + "module_prefix=" + "streamr.dht" + "";
    assert !Contains("", KEY);
    hide ModulePrefix, OccursAt;
    PrefixIsExactlyTheValue("", "streamr.dht", "");
  }

  /** Such a parameter: the key alone. */
  lemma KeyAloneFailsSilently()
    ensures ModulePrefix(KEY) == ("", false)
  {
    hide Find, FirstOf;
    assert "" + KEY + "" + "" == KEY;
    assert !Contains("", KEY);
    PrefixIsExactlyTheValue("", "", "");
  }
}
