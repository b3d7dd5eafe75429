// The name and path normalisers of the per-target FASTBuild generator: how a
// dependency path becomes a ledger key or a library alias, how directory
// parts are cut, and the two string-rewriting loops that make names
// acceptable inside a .bff file.

module TargetNames {
  import opened Text

  /* ---------------- basenames ---------------- */

  /**
   * Where GetNameFile and GetNameTargetLibrary start the file name: one past
   * the last separator when only one kind of separator occurs, and AT the
   * later separator when both '/' and '\\' occur.
   */
  function BaseStart(path: string): (r: nat)
    ensures r <= |path|
  {
    var f1 := RFind(path, '/');
    var f2 := RFind(path, '\\');
    if f1.Some? && f2.None? then f1.value + 1
    else if f1.None? && f2.Some? then f2.value + 1
    else if f1.Some? && f2.Some? then (if f1.value < f2.value then f2.value else f1.value)
    else 0
  }

  /** The text before the first '.', or all of it. */
  function UpToDot(name: string): (r: string)
    ensures '.' !in r && r <= name
    ensures r == name <==> '.' !in name
  {
    match Find(name, '.')
    case None => name
    case Some(p) => name[..p]
  }

  /** GetNameFile: the file name of a path up to its first '.'. */
  function GetNameFile(path: string): (r: string)
    ensures '.' !in r && r <= path[BaseStart(path)..]
  {
    UpToDot(path[BaseStart(path)..])
  }

  /** With only one kind of separator, the name follows its last occurrence. */
  lemma NameFileOneSeparator(path: string, sep: char, other: char, i: nat)
    requires {sep, other} == {'/', '\\'}
    requires i < |path| && path[i] == sep && sep !in path[i + 1..] && other !in path
    ensures GetNameFile(path) == UpToDot(path[i + 1..])
    ensures '/' !in GetNameFile(path) && '\\' !in GetNameFile(path)
  {
    assert sep == '/' <==> other == '\\' by {
      assert sep in {'/', '\\'} && other in {'/', '\\'};
    }
    RFindLast(path, sep, i);
    assert RFind(path, other).None?;
    assert BaseStart(path) == i + 1;
    var name := path[i + 1..];
    assert other !in name by {
      forall j | 0 <= j < |name| ensures name[j] != other { assert name[j] == path[i + 1 + j]; }
    }
    assert UpToDot(name) <= name;
  }

  /** Without separators, the name is the path up to its first '.'. */
  lemma NameFileNoSeparator(path: string)
    requires '/' !in path && '\\' !in path
    ensures GetNameFile(path) == UpToDot(path)
  {
  }

  /**
   * With both separators present the later separator is kept: the result
   * starts with it.
   */
  lemma NameFileBothSeparators(path: string, i: nat)
    requires i < |path| && path[i] in {'/', '\\'}
    requires '/' !in path[i + 1..] && '\\' !in path[i + 1..]
    requires '/' in path && '\\' in path
    ensures GetNameFile(path) != [] && GetNameFile(path)[0] == path[i]
  {
    var other := if path[i] == '/' then '\\' else '/';
    RFindLast(path, path[i], i);
    var o := RFind(path, other);
    assert o.Some? && o.value < i;
    assert BaseStart(path) == i;
    FindFirst(path[i..], path[i], 0);
  }

  /* ---------------- library names ---------------- */

  /**
   * The suffix GetNameTargetLibrary gives a file name whose last '.' is at
   * `p`: None for a manifest, which yields no name at all.
   */
  function LibraryTag(file: string, p: nat): (r: Option<string>)
    requires p < |file|
  {
    if Substr(file, p, 4) == ".lib" || Substr(file, p, 2) == ".a" then Some("_lib")
    else if FindSub(file, ".so").Some? then Some("_dll")
    else if Substr(file, p, 9) == ".manifest" then None
    else Some("")
  }

  /**
   * GetNameTargetLibrary: the stem of the file name before its last '.', a
   * kind suffix, and "_" + config when multi-config; "" for a manifest.
   */
  function GetNameTargetLibrary(path: string, isMultiConfig: bool, config: string): (r: string)
  {
    FileLibraryName(path[BaseStart(path)..], isMultiConfig, config)
  }

  /** GetNameTargetLibrary once the directory part is cut off. */
  function FileLibraryName(file: string, isMultiConfig: bool, config: string): (r: string)
  {
    var named :=
      match RFind(file, '.')
      case None => Some("")
      case Some(p) =>
        match LibraryTag(file, p)
        case None => None
        case Some(tag) => Some(file[..p] + tag);
    match named
    case None => ""
    case Some(n) => n + ConfigSuffix(isMultiConfig, config)
  }

  /** The "_" + config a multi-config generator appends to a name. */
  function ConfigSuffix(isMultiConfig: bool, config: string): (r: string)
    ensures isMultiConfig <==> r != ""
  {
    if isMultiConfig then "_" + config else ""
  }

  /** The library name of a file whose last '.' is at `p` and whose kind is `tag`. */
  lemma FileLibraryNameAt(file: string, p: nat, tag: string, isMultiConfig: bool, config: string)
    requires p < |file| && file[p] == '.' && '.' !in file[p + 1..]
    requires LibraryTag(file, p) == Some(tag)
    ensures FileLibraryName(file, isMultiConfig, config) == file[..p] + tag + ConfigSuffix(isMultiConfig, config)
  {
    RFindLast(file, '.', p);
  }

  /** Below a directory written with '/', the file name is what follows it. */
  lemma FileOfPath(dir: string, file: string)
    requires '\\' !in dir && '/' !in file && '\\' !in file
    ensures (dir + "/" + file)[BaseStart(dir + "/" + file)..] == file
  {
    var path := dir + "/" + file;
    var i := |dir|;
    assert path[i] == '/' && path[i + 1..] == file;
    assert '\\' !in path by {
      assert path == dir + ("/" + file);
    }
    RFindLast(path, '/', i);
    assert BaseStart(path) == i + 1;
  }

  /** The library name of `dir/name` + `ext` is decided by the file name alone. */
  lemma LibraryNameOfPath(dir: string, name: string, ext: string, isMultiConfig: bool, config: string)
    requires '\\' !in dir && '/' !in name + ext && '\\' !in name + ext
    ensures GetNameTargetLibrary(dir + "/" + name + ext, isMultiConfig, config)
         == FileLibraryName(name + ext, isMultiConfig, config)
  {
    assert dir + "/" + name + ext == dir + "/" + (name + ext);
    FileOfPath(dir, name + ext);
  }

  /** `name` + `ext` has its last '.' where `ext` starts. */
  lemma DotExtension(name: string, ext: string)
    requires '.' !in name && ext != [] && ext[0] == '.' && '.' !in ext[1..]
    ensures (name + ext)[|name|] == '.' && '.' !in (name + ext)[|name| + 1..]
    ensures (name + ext)[..|name|] == name && (name + ext)[|name|..] == ext
  {
    assert (name + ext)[|name| + 1..] == ext[1..];
  }

  lemma ArchiveTag(file: string, p: nat)
    requires p < |file| && (file[p..] == ".lib" || file[p..] == ".a")
    ensures LibraryTag(file, p) == Some("_lib")
  {
    if file[p..] == ".lib" {
      assert Substr(file, p, 4) == ".lib";
    } else {
      assert Substr(file, p, 2) == ".a";
    }
  }

  lemma SharedTag(file: string, p: nat)
    requires p < |file| && file[p..] == ".so"
    ensures LibraryTag(file, p) == Some("_dll")
  {
    assert Substr(file, p, 4) == ".so";
    assert Substr(file, p, 2) == ".s";
    assert OccursAt(file, ".so", p);
  }

  lemma ManifestTag(file: string, p: nat)
    requires p < |file| && file[p..] == ".manifest" && '.' !in file[..p]
    ensures LibraryTag(file, p) == None
  {
    assert Substr(file, p, 9) == ".manifest";
    assert Substr(file, p, 4) == ".man";
    assert Substr(file, p, 2) == ".m";
    forall k | 0 <= k < p
      ensures file[k] != '.'
    {
      assert file[k] == file[..p][k];
    }
    assert file[p + 1] == file[p..][1] == 'm';
    forall j | 0 <= j <= |file|
      ensures !OccursAt(file, ".so", j)
    {
      if j + 3 <= |file| {
        assert file[j..j + 3][0] == file[j] && file[j..j + 3][1] == file[j + 1];
        if j > p {
          assert file[j] == file[p..][j - p];
        }
      }
    }
  }

  /** A static or import library `dir/name.lib` or `dir/name.a` is named name_lib. */
  lemma LibraryNameOfArchive(dir: string, name: string, ext: string, isMultiConfig: bool, config: string)
    requires ext == ".lib" || ext == ".a"
    requires '.' !in name && '/' !in name && '\\' !in name && '\\' !in dir
    ensures GetNameTargetLibrary(dir + "/" + name + ext, isMultiConfig, config)
         == name + "_lib" + ConfigSuffix(isMultiConfig, config)
  {
    LibraryNameOfPath(dir, name, ext, isMultiConfig, config);
    DotExtension(name, ext);
    ArchiveTag(name + ext, |name|);
    FileLibraryNameAt(name + ext, |name|, "_lib", isMultiConfig, config);
  }

  /** A shared library `dir/name.so` is named name_dll. */
  lemma LibraryNameOfShared(dir: string, name: string, isMultiConfig: bool, config: string)
    requires '.' !in name && '/' !in name && '\\' !in name && '\\' !in dir
    ensures GetNameTargetLibrary(dir + "/" + name + ".so", isMultiConfig, config)
         == name + "_dll" + ConfigSuffix(isMultiConfig, config)
  {
    LibraryNameOfPath(dir, name, ".so", isMultiConfig, config);
    DotExtension(name, ".so");
    SharedTag(name + ".so", |name|);
    FileLibraryNameAt(name + ".so", |name|, "_dll", isMultiConfig, config);
  }

  /** A manifest yields no library name, whatever the configuration. */
  lemma LibraryNameOfManifest(dir: string, name: string, isMultiConfig: bool, config: string)
    requires '.' !in name && '/' !in name && '\\' !in name && '\\' !in dir
    ensures GetNameTargetLibrary(dir + "/" + name + ".manifest", isMultiConfig, config) == ""
  {
    LibraryNameOfPath(dir, name, ".manifest", isMultiConfig, config);
    ManifestFileName(name, isMultiConfig, config);
  }

  lemma ManifestFileName(name: string, isMultiConfig: bool, config: string)
    requires '.' !in name
    ensures FileLibraryName(name + ".manifest", isMultiConfig, config) == ""
  {
    var file := name + ".manifest";
    DotExtension(name, ".manifest");
    RFindLast(file, '.', |name|);
    ManifestTag(file, |name|);
  }

  /** A file name without any '.' has an empty stem. */
  lemma LibraryNameWithoutDot(dir: string, name: string, isMultiConfig: bool, config: string)
    requires '.' !in name && '/' !in name && '\\' !in name && '\\' !in dir
    ensures GetNameTargetLibrary(dir + "/" + name, isMultiConfig, config)
         == ConfigSuffix(isMultiConfig, config)
  {
    LibraryNameOfPath(dir, name, "", isMultiConfig, config);
    assert name + "" == name && dir + "/" + name + "" == dir + "/" + name;
  }

  /* ---------------- paths and extensions ---------------- */

  /** GetOutputExtension: the source extension a language compiles from. */
  function GetOutputExtension(lang: string): (r: string)
    ensures r != "" <==> lang in {"C", "CXX", "RC"}
    ensures lang == "C" ==> r == "c"
    ensures lang == "CXX" ==> r == "cpp"
    ensures lang == "RC" ==> r == "rc"
  {
    if lang == "C" then "c"
    else if lang == "CXX" then "cpp"
    else if lang == "RC" then "rc"
    else ""
  }

  /** GetPath: the directory part of a path, through its last '/'. */
  function GetPath(fullPath: string): (r: string)
    ensures r <= fullPath
    ensures r == "" <==> '/' !in fullPath
    ensures r != "" ==> r[|r| - 1] == '/' && '/' !in fullPath[|r|..]
  {
    match RFind(fullPath, '/')
    case None => ""
    case Some(i) => fullPath[..i + 1]
  }

  /** Taking the directory part twice is taking it once. */
  lemma GetPathIdempotent(fullPath: string)
    ensures GetPath(GetPath(fullPath)) == GetPath(fullPath)
  {
    var r := GetPath(fullPath);
    if r != "" {
      assert r[|r|..] == [];
      RFindLast(r, '/', |r| - 1);
      assert r[..|r|] == r;
    }
  }

  /* ---------------- rewriting loops ---------------- */

  /**
   * Rewrites every `c` to `rep`, each time searching again from the start,
   * as ReplaceDashWithUnderscores and the Exec name of a custom command do.
   */
  method ReplaceEach(s: string, c: char, rep: string) returns (r: string)
    requires c !in rep
    ensures r == MapChar(s, c, rep)
  {
    r := s;
    var found := Find(r, c);
    while found.Some?
      invariant MapChar(r, c, rep) == MapChar(s, c, rep)
      invariant found == Find(r, c)
      decreases Occ(r, c)
    {
      var i := found.value;
      ReplaceOneStep(r, i, c, rep);
      r := r[..i] + rep + r[i + 1..];
      found := Find(r, c);
    }
  }

  /** Rewriting one occurrence keeps the full rewrite and removes one `c`. */
  lemma ReplaceOneStep(r: string, i: nat, c: char, rep: string)
    requires i < |r| && r[i] == c && c !in rep
    ensures MapChar(r[..i] + rep + r[i + 1..], c, rep) == MapChar(r, c, rep)
    ensures Occ(r[..i] + rep + r[i + 1..], c) < Occ(r, c)
  {
    var a, b := r[..i], r[i + 1..];
    assert r == a + [c] + b;
    RewriteMiddle(a, b, c, rep);
    CountMiddle(a, b, c, rep);
  }

  lemma RewriteMiddle(a: string, b: string, c: char, rep: string)
    requires c !in rep
    ensures MapChar(a + rep + b, c, rep) == MapChar(a + [c] + b, c, rep)
  {
    assert [c][1..] == [];
    assert MapChar([c], c, rep) == rep + MapChar([], c, rep) == rep;
    calc {
      MapChar(a + rep + b, c, rep);
      { MapCharAppend(a + rep, b, c, rep); MapCharAppend(a, rep, c, rep); }
      MapChar(a, c, rep) + rep + MapChar(b, c, rep);
      { MapCharAppend(a + [c], b, c, rep); MapCharAppend(a, [c], c, rep); }
      MapChar(a + [c] + b, c, rep);
    }
  }

  lemma CountMiddle(a: string, b: string, c: char, rep: string)
    requires c !in rep
    ensures Occ(a + rep + b, c) < Occ(a + [c] + b, c)
  {
    OccConcat(a + [c], b, c);
    OccConcat(a, [c], c);
    OccConcat(a + rep, b, c);
    OccConcat(a, rep, c);
    OccAbsent(rep, c);
  }

  /** ReplaceDashWithUnderscores: each '-' becomes "__". */
  method ReplaceDashWithUnderscores(s: string) returns (r: string)
    ensures r == MapChar(s, '-', "__")
    ensures '-' !in r && |r| == |s| + Occ(s, '-')
  {
    r := ReplaceEach(s, '-', "__");
    MapCharRemoves(s, '-', "__");
    MapCharPairLength(s, '-', "__");
  }

  /** GetShortOutputName: the full name up to its first '.', dashes rewritten. */
  function GetShortOutputName(fullName: string): (r: string)
    ensures '-' !in r && '.' !in r
  {
    var stem := UpToDot(fullName);
    MapCharRemoves(stem, '-', "__");
    MapCharKeepsAbsent(stem, '.', '-', "__");
    MapChar(stem, '-', "__")
  }

  lemma {:induction false} MapCharKeepsAbsent(s: string, x: char, c: char, rep: string)
    requires x !in s && x !in rep
    ensures x !in MapChar(s, c, rep)
  {
    if s != [] {
      MapCharKeepsAbsent(s[1..], x, c, rep);
    }
  }

  /** A backslash directly before a double quote. */
  predicate EscapedQuoteAt(s: string, i: int)
  {
    0 <= i && i + 1 < |s| && s[i] == '\\' && s[i + 1] == '"'
  }

  /**
   * What RemoveBackslashBeforeDoubleRib computes: every backslash that is
   * followed, after possibly more backslashes, by a double quote is dropped.
   */
  function StripQuoteEscapes(s: string): (r: string)
    ensures |r| <= |s|
    ensures s != [] && s[0] != '\\' ==> r != [] && r[0] == s[0]
  {
    if s == [] then []
    else
      var rest := StripQuoteEscapes(s[1..]);
      if s[0] == '\\' && rest != [] && rest[0] == '"' then rest else [s[0]] + rest
  }

  lemma {:induction false} StripLeavesNoEscape(s: string)
    ensures forall i :: !EscapedQuoteAt(StripQuoteEscapes(s), i)
  {
    if s != [] {
      StripLeavesNoEscape(s[1..]);
      var rest := StripQuoteEscapes(s[1..]);
      var r := StripQuoteEscapes(s);
      forall i | EscapedQuoteAt(r, i)
        ensures false
      {
        if r != rest {
          assert r == [s[0]] + rest;
          if i > 0 {
            assert EscapedQuoteAt(rest, i - 1);
          }
        }
      }
    }
  }

  lemma {:induction false} StripClean(s: string)
    requires forall i :: !EscapedQuoteAt(s, i)
    ensures StripQuoteEscapes(s) == s
  {
    if s != [] {
      forall i
        ensures !EscapedQuoteAt(s[1..], i)
      {
        assert !EscapedQuoteAt(s, i + 1);
      }
      StripClean(s[1..]);
      if s[0] == '\\' && |s| > 1 {
        assert !EscapedQuoteAt(s, 0);
      }
    }
  }

  /** Dropping one escaping backslash does not change the stripped text. */
  lemma {:induction false} StripDropOne(s: string, p: nat)
    requires EscapedQuoteAt(s, p)
    ensures StripQuoteEscapes(s[..p] + s[p + 1..]) == StripQuoteEscapes(s)
    decreases p
  {
    if p == 0 {
      assert s[..0] + s[1..] == s[1..];
    } else {
      var t := s[..p] + s[p + 1..];
      assert t[0] == s[0];
      assert t[1..] == s[1..][..p - 1] + s[1..][p..];
      assert EscapedQuoteAt(s[1..], p - 1);
      StripDropOne(s[1..], p - 1);
    }
  }

  /** StripQuoteEscapes is idempotent. */
  lemma StripIdempotent(s: string)
    ensures StripQuoteEscapes(StripQuoteEscapes(s)) == StripQuoteEscapes(s)
  {
    StripLeavesNoEscape(s);
    StripClean(StripQuoteEscapes(s));
  }

  /**
   * RemoveBackslashBeforeDoubleRib: repeatedly deletes the backslash of the
   * first backslash-quote pair until none is left.
   */
  method RemoveBackslashBeforeDoubleRib(s: string) returns (r: string)
    ensures r == StripQuoteEscapes(s)
    ensures forall i :: !EscapedQuoteAt(r, i)
  {
    r := s;
    var found := FindSub(r, "\\\"");
    while found.Some?
      invariant StripQuoteEscapes(r) == StripQuoteEscapes(s)
      invariant found == FindSub(r, "\\\"")
      decreases |r|
    {
      var p := found.value;
      assert r[p..p + 2] == "\\\"";
      assert r[p] == r[p..p + 2][0] && r[p + 1] == r[p..p + 2][1];
      StripDropOne(r, p);
      r := r[..p] + r[p + 1..];
      found := FindSub(r, "\\\"");
    }
    forall i | EscapedQuoteAt(r, i)
      ensures false
    {
      assert r[i..i + 2] == "\\\"";
      assert OccursAt(r, "\\\"", i);
    }
    StripClean(r);
  }

  /* ---------------- dependency name lists ---------------- */

  /**
   * RemoveDuplicateName: the names pass through a std::map, so the result is
   * each distinct name once, in ascending order.
   */
  method RemoveDuplicateName(names: seq<string>) returns (r: seq<string>)
    ensures Ascending(r) && Distinct(r) && Elems(r) == Elems(names)
  {
    r := [];
    var i := 0;
    while i < |names|
      invariant i <= |names|
      invariant Ascending(r) && Distinct(r) && Elems(r) == Elems(names[..i])
    {
      TakeSnoc(names, i);
      if names[i] !in r {
        r := Insert(r, names[i]);
      }
      i := i + 1;
    }
    assert names[..i] == names;
  }

  /** A link dependency whose last extension starts with ".manifest". */
  predicate IsManifest(dep: string)
  {
    match RFind(dep, '.')
    case None => false
    case Some(p) => Substr(dep, p, 9) == ".manifest"
  }

  /** GetFileDeps: the link dependencies without manifests, sorted and unique. */
  method GetFileDeps(deps: seq<string>) returns (r: seq<string>)
    ensures Ascending(r) && Distinct(r)
    ensures forall d :: d in r <==> d in deps && !IsManifest(d)
  {
    var kept: seq<string> := [];
    var i := 0;
    while i < |deps|
      invariant i <= |deps|
      invariant forall d :: d in kept <==> d in deps[..i] && !IsManifest(d)
    {
      TakeSnoc(deps, i);
      if !IsManifest(deps[i]) {
        kept := kept + [deps[i]];
      }
      i := i + 1;
    }
    assert deps[..i] == deps;
    r := RemoveDuplicateName(kept);
    assert forall d :: d in r <==> d in Elems(kept);
  }

  /** GetNameDepsTargets: the ledger keys (file name ++ config) of the link dependencies. */
  method GetNameDepsTargets(deps: seq<string>, config: string) returns (r: seq<string>)
    ensures Ascending(r) && Distinct(r)
    ensures forall d :: d in deps ==> GetNameFile(d) + config in r
    ensures forall k :: k in r ==> exists j :: 0 <= j < |deps| && k == GetNameFile(deps[j]) + config
  {
    var keys: seq<string> := [];
    var i := 0;
    while i < |deps|
      invariant i <= |deps| && |keys| == i
      invariant forall j :: 0 <= j < i ==> keys[j] == GetNameFile(deps[j]) + config
    {
      keys := keys + [GetNameFile(deps[i]) + config];
      i := i + 1;
    }
    r := RemoveDuplicateName(keys);
    forall d | d in deps
      ensures GetNameFile(d) + config in r
    {
      var j :| 0 <= j < |deps| && deps[j] == d;
      assert keys[j] in Elems(keys);
    }
    forall k | k in r
      ensures exists j :: 0 <= j < |deps| && k == GetNameFile(deps[j]) + config
    {
      assert k in Elems(keys);
      var j :| 0 <= j < |keys| && keys[j] == k;
    }
  }

  /** GNU and Clang library names lose a leading "lib". */
  function DropLibPrefix(name: string, compilerId: string): (r: string)
    ensures r == name || (|name| >= 3 && r == name[3..])
    ensures (compilerId == "GNU" || compilerId == "Clang") && |name| >= 3 && name[..3] == "lib"
            <==> r != name
  {
    if (compilerId == "GNU" || compilerId == "Clang") && Substr(name, 0, 3) == "lib" then name[3..]
    else name
  }

  /**
   * The alias a library dependency contributes to GetNameTargetLibraries, if
   * its target is registered in the ledger.
   */
  function LibraryDependency(dep: string, isMultiConfig: bool, config: string,
                             compilerId: string, ledger: set<string>): (r: Option<string>)
    ensures r.Some? ==> r.value != ""
  {
    var target := DropLibPrefix(GetNameTargetLibrary(dep, isMultiConfig, config), compilerId);
    var key := DropLibPrefix(GetNameFile(dep) + config, compilerId);
    if target != "" && key in ledger then Some(target) else None
  }

  /**
   * Only dependencies whose target is registered in the ledger contribute;
   * outside GNU and Clang the alias is the library name unchanged.
   */
  lemma LibraryDependencyRegistered(dep: string, isMultiConfig: bool, config: string,
                                    compilerId: string, ledger: set<string>)
    ensures LibraryDependency(dep, isMultiConfig, config, compilerId, ledger).Some? ==>
              DropLibPrefix(GetNameFile(dep) + config, compilerId) in ledger
    ensures compilerId != "GNU" && compilerId != "Clang" ==>
              LibraryDependency(dep, isMultiConfig, config, compilerId, ledger) ==
              (if GetNameTargetLibrary(dep, isMultiConfig, config) != "" && GetNameFile(dep) + config in ledger
               then Some(GetNameTargetLibrary(dep, isMultiConfig, config)) else None)
  {
  }

  /** What each dependency contributes, in dependency order. */
  function Contributions(deps: seq<string>, isMultiConfig: bool, config: string,
                         compilerId: string, ledger: set<string>): (r: seq<Option<string>>)
    ensures |r| == |deps|
  {
    seq(|deps|, i requires 0 <= i < |deps| => LibraryDependency(deps[i], isMultiConfig, config, compilerId, ledger))
  }

  /**
   * GetNameTargetLibraries: the library aliases of the dependencies whose
   * targets the ledger knows, sorted and unique.
   */
  method GetNameTargetLibraries(deps: seq<string>, isMultiConfig: bool, config: string,
                                compilerId: string, ledger: set<string>)
    returns (r: seq<string>)
    ensures Ascending(r) && Distinct(r)
    ensures forall k :: k in r <==> Some(k) in Contributions(deps, isMultiConfig, config, compilerId, ledger)
  {
    ghost var all := Contributions(deps, isMultiConfig, config, compilerId, ledger);
    var names: seq<string> := [];
    var i := 0;
    while i < |deps|
      invariant i <= |deps|
      invariant names == Somes(all[..i])
    {
      TakeSnoc(all, i);
      SomesSnoc(all[..i], all[i]);
      var dep := LibraryDependency(deps[i], isMultiConfig, config, compilerId, ledger);
      assert dep == all[i];
      if dep.Some? {
        names := names + [dep.value];
      }
      i := i + 1;
    }
    TakeAll(all);
    r := RemoveDuplicateName(names);
    DedupOfSomes(all, names, r);
  }

  lemma DedupOfSomes<T>(all: seq<Option<T>>, names: seq<T>, r: seq<T>)
    requires names == Somes(all) && Elems(r) == Elems(names)
    ensures forall k :: k in r <==> Some(k) in all
  {
    forall k
      ensures k in r <==> Some(k) in all
    {
      SomesMembers(all, k);
      assert k in r <==> k in Elems(names);
    }
  }
}
