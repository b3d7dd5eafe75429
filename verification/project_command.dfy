// cmProjectCommand: the project() command. It includes the file named by
// CMAKE_PROJECT_INCLUDE_BEFORE, records the project name and directories,
// reads its arguments, sets or clears the version variables as CMP0048 and
// CMP0096 direct, sets the description and homepage, enables the languages
// and includes the files named by CMAKE_PROJECT_INCLUDE and
// CMAKE_PROJECT_<name>_INCLUDE. Each phase is a method on the makefile,
// proved equal to a function of the makefile's state.

module ProjectCommand {
  import opened Text
  import opened CMakeMakefile
  import opened ProjectArgs
  import opened ProjectVersion

  const ArgCountText := "PROJECT called with incorrect number of arguments"
  const NotFoundPrefix := "could not find file:\n  "
  const MisplacedText := "project with VERSION, DESCRIPTION or HOMEPAGE_URL must use LANGUAGES before language names."
  const PolicyText := "VERSION not allowed unless CMP0048 is set to NEW"
  const EmptyListHeader := "\nThe following variable(s) would be set to empty:"
  const EmptyItemPrefix := "\n  "
  /** The languages enabled when none are named. */
  const DefaultLanguages: seq<string> := ["C", "CXX"]

  /**
   * What the command reads besides its arguments and the makefile's state:
   * whether the makefile is the top-level one, its directories, the
   * settings of CMP0048 and CMP0096, the files that can be read, and the
   * text of the CMP0048 warning.
   */
  datatype Environment = Environment(
    isRoot: bool, sourceDir: string, binaryDir: string,
    cmp0048: PolicyStatus, cmp0096: PolicyStatus,
    readable: set<string>, policyWarning: string)

  /** The environment agrees with the makefile on what the makefile knows. */
  predicate Describes(env: Environment, mf: Makefile)
  {
    env.isRoot == mf.isRoot && env.sourceDir == mf.currentSourceDirectory && env.binaryDir == mf.currentBinaryDirectory
  }

  /** What the command returns, the error it sets, and the makefile's new state. */
  datatype Outcome = Outcome(ok: bool, error: string, st: MakefileState)

  // ----- IncludeByVariable -----

  /** The file a variable names is read; a missing file is an error unless a fatal error already occurred. */
  function IncludeOutcome(st: MakefileState, variable: string, readable: set<string>): Outcome
  {
    match Visible(st, variable)
    case None => Outcome(true, "", st)
    case Some(file) =>
      if file in readable then Outcome(true, "", st.(readFiles := st.readFiles + [file]))
      else if st.fatalErrorOccurred then Outcome(true, "", st)
      else Outcome(false, NotFoundPrefix + file, st)
  }

  method IncludeByVariable(mf: Makefile, variable: string, readable: set<string>) returns (ok: bool, error: string)
    modifies mf
    ensures Outcome(ok, error, mf.State()) == IncludeOutcome(old(mf.State()), variable, readable)
  {
    var file := mf.GetDefinition(variable);
    if file.None? {
      return true, "";
    }
    var readit := mf.ReadDependentFile(file.value, readable);
    if readit {
      return true, "";
    }
    if mf.fatalErrorOccurred {
      return true, "";
    }
    return false, NotFoundPrefix + file.value;
  }

  /**
   * The include fails exactly when the variable names a file that cannot be
   * read and no fatal error occurred; the error then names the file and
   * nothing changes. Only a file that is read is recorded.
   */
  lemma IncludeSpec(st: MakefileState, variable: string, readable: set<string>)
    ensures var o := IncludeOutcome(st, variable, readable);
      && (!o.ok <==> Visible(st, variable).Some? && Visible(st, variable).value !in readable && !st.fatalErrorOccurred)
      && (!o.ok ==> o.error == NotFoundPrefix + Visible(st, variable).value && o.st == st)
      && (o.ok ==> o.error == "")
      && (Visible(st, variable).Some? && Visible(st, variable).value in readable ==>
            o.st == st.(readFiles := st.readFiles + [Visible(st, variable).value]))
      && (Visible(st, variable).None? || Visible(st, variable).value !in readable ==> o.st == st)
  {
  }

  // ----- TopLevelCMakeVarCondSet -----

  /** A CMAKE_PROJECT_* variable and cache entry are set in the top-level makefile, or where none is visible yet. */
  function CondSet(st: MakefileState, isRoot: bool, name: string, value: string): MakefileState
  {
    if Visible(st, name).None? || isRoot
    then st.(definitions := st.definitions[name := value], cache := st.cache[name := value])
    else st
  }

  method TopLevelCMakeVarCondSet(mf: Makefile, name: string, value: string)
    modifies mf
    ensures mf.State() == CondSet(old(mf.State()), mf.isRoot, name, value)
  {
    if mf.GetDefinition(name).None? || mf.isRoot {
      mf.AddDefinition(name, value);
      mf.AddCacheDefinition(name, value);
    }
  }

  /**
   * In the top-level makefile the value is always set, so of two project()
   * calls there the last one wins; elsewhere a visible value is kept, so
   * the highest project in the tree wins; no other variable changes.
   */
  lemma CondSetSpec(st: MakefileState, isRoot: bool, name: string, value: string, other: string)
    requires other != name
    ensures var s := CondSet(st, isRoot, name, value);
      && (isRoot || Visible(st, name).None? ==> Visible(s, name) == Some(value) && s.cache[name] == value)
      && (!isRoot && Visible(st, name).Some? ==> s == st)
      && Visible(s, other) == Visible(st, other)
      && s.(definitions := st.definitions, cache := st.cache) == st
  {
  }

  /** Two calls in a row: at the top level the second value stays, elsewhere the first one does. */
  lemma CondSetTwice(st: MakefileState, isRoot: bool, name: string, first: string, second: string)
    ensures var s := CondSet(CondSet(st, isRoot, name, first), isRoot, name, second);
      && (isRoot ==> Visible(s, name) == Some(second))
      && (!isRoot && Visible(st, name).None? ==> Visible(s, name) == Some(first))
  {
  }

  // ----- The project name and directories -----

  /** The project name, its directories as cache entries and variables, and CMAKE_PROJECT_NAME. */
  function Named(st: MakefileState, env: Environment, name: string): MakefileState
  {
    var s := st.(
      projectName := name,
      cache := st.cache[name + "_BINARY_DIR" := env.binaryDir][name + "_SOURCE_DIR" := env.sourceDir],
      definitions := st.definitions["PROJECT_BINARY_DIR" := env.binaryDir]["PROJECT_SOURCE_DIR" := env.sourceDir]["PROJECT_NAME" := name]);
    CondSet(s, env.isRoot, "CMAKE_PROJECT_NAME", name)
  }

  method SetNames(mf: Makefile, env: Environment, name: string)
    requires Describes(env, mf)
    modifies mf
    ensures mf.State() == Named(old(mf.State()), env, name)
  {
    mf.SetProjectName(name);
    mf.AddCacheDefinition(name + "_BINARY_DIR", mf.currentBinaryDirectory);
    mf.AddCacheDefinition(name + "_SOURCE_DIR", mf.currentSourceDirectory);
    mf.AddDefinition("PROJECT_BINARY_DIR", mf.currentBinaryDirectory);
    mf.AddDefinition("PROJECT_SOURCE_DIR", mf.currentSourceDirectory);
    mf.AddDefinition("PROJECT_NAME", name);
    TopLevelCMakeVarCondSet(mf, "CMAKE_PROJECT_NAME", name);
  }

  /** Two strings that end differently differ. */
  lemma EndsDiffer(x: string, s: string, y: string, t: string, d: nat)
    requires d < |s| && d < |t| && s[|s| - 1 - d] != t[|t| - 1 - d]
    ensures x + s != y + t
  {
    var a, b := x + s, y + t;
    assert a[|a| - 1 - d] == s[|s| - 1 - d];
    assert b[|b| - 1 - d] == t[|t| - 1 - d];
  }

  /**
   * After the names are set, PROJECT_NAME and the PROJECT_*_DIR variables
   * hold the name and directories, the <name>_*_DIR cache entries hold the
   * directories, and CMAKE_PROJECT_NAME is the name at the top level or
   * when it was not set before.
   */
  lemma NamedSpec(st: MakefileState, env: Environment, name: string)
    ensures var s := Named(st, env, name);
      && s.projectName == name
      && Visible(s, "PROJECT_NAME") == Some(name)
      && Visible(s, "PROJECT_SOURCE_DIR") == Some(env.sourceDir)
      && Visible(s, "PROJECT_BINARY_DIR") == Some(env.binaryDir)
      && s.cache[name + "_SOURCE_DIR"] == env.sourceDir
      && s.cache[name + "_BINARY_DIR"] == env.binaryDir
      && (env.isRoot || Visible(st, "CMAKE_PROJECT_NAME").None? ==> Visible(s, "CMAKE_PROJECT_NAME") == Some(name))
  {
    NamedVariables(st, env, name);
    NamedCache(st, env, name);
    NamedTop(st, env, name);
  }

  lemma NamedVariables(st: MakefileState, env: Environment, name: string)
    ensures var s := Named(st, env, name);
      && s.projectName == name
      && Visible(s, "PROJECT_NAME") == Some(name)
      && Visible(s, "PROJECT_SOURCE_DIR") == Some(env.sourceDir)
      && Visible(s, "PROJECT_BINARY_DIR") == Some(env.binaryDir)
  {
    var top := "CMAKE_PROJECT_NAME";
    assert |top| != |"PROJECT_NAME"|;
    assert top != "PROJECT_SOURCE_DIR" && top != "PROJECT_BINARY_DIR" by {
      assert top[17] == 'E' && "PROJECT_SOURCE_DIR"[17] == 'R' && "PROJECT_BINARY_DIR"[17] == 'R';
    }
  }

  lemma NamedCache(st: MakefileState, env: Environment, name: string)
    ensures var s := Named(st, env, name);
      && s.cache[name + "_SOURCE_DIR"] == env.sourceDir
      && s.cache[name + "_BINARY_DIR"] == env.binaryDir
  {
    EndsDiffer(name, "_BINARY_DIR", name, "_SOURCE_DIR", 4);
    EndsDiffer(name, "_SOURCE_DIR", "CMAKE_", "PROJECT_NAME", 0);
    EndsDiffer(name, "_BINARY_DIR", "CMAKE_", "PROJECT_NAME", 0);
    assert "CMAKE_" + "PROJECT_NAME" == "CMAKE_PROJECT_NAME";
  }

  lemma NamedTop(st: MakefileState, env: Environment, name: string)
    ensures var s := Named(st, env, name);
      env.isRoot || Visible(st, "CMAKE_PROJECT_NAME").None? ==> Visible(s, "CMAKE_PROJECT_NAME") == Some(name)
  {
    assert |"CMAKE_PROJECT_NAME"| != |"PROJECT_NAME"|;
    assert "CMAKE_PROJECT_NAME" != "PROJECT_SOURCE_DIR" && "CMAKE_PROJECT_NAME" != "PROJECT_BINARY_DIR" by {
      assert "CMAKE_PROJECT_NAME"[17] == 'E' && "PROJECT_SOURCE_DIR"[17] == 'R' && "PROJECT_BINARY_DIR"[17] == 'R';
    }
  }

  // ----- The version variables -----

  /** The endings of the version variable names, for the version and its four components. */
  const VersionSuffixes: seq<string> := ["_VERSION", "_VERSION_MAJOR", "_VERSION_MINOR", "_VERSION_PATCH", "_VERSION_TWEAK"]

  /** The value for suffix k: the version string, then each component. */
  function VersionValue(versionString: string, components: seq<string>, k: nat): string
    requires |components| == MaxVersionComponents && k < 5
  {
    if k == 0 then versionString else components[k - 1]
  }

  /** The variables set, in order: PROJECT_VERSION<suffix>, then <name>_VERSION<suffix>, for each suffix. */
  function VersionPairs(name: string, versionString: string, components: seq<string>): seq<(string, string)>
    requires |components| == MaxVersionComponents
  {
    [("PROJECT_VERSION", versionString), (name + "_VERSION", versionString),
     ("PROJECT_VERSION_MAJOR", components[0]), (name + "_VERSION_MAJOR", components[0]),
     ("PROJECT_VERSION_MINOR", components[1]), (name + "_VERSION_MINOR", components[1]),
     ("PROJECT_VERSION_PATCH", components[2]), (name + "_VERSION_PATCH", components[2]),
     ("PROJECT_VERSION_TWEAK", components[3]), (name + "_VERSION_TWEAK", components[3])]
  }

  /** The top-level variables, CMAKE_PROJECT_VERSION<suffix>, in order. */
  function TopLevelVersionPairs(versionString: string, components: seq<string>): seq<(string, string)>
    requires |components| == MaxVersionComponents
  {
    [("CMAKE_PROJECT_VERSION", versionString), ("CMAKE_PROJECT_VERSION_MAJOR", components[0]),
     ("CMAKE_PROJECT_VERSION_MINOR", components[1]), ("CMAKE_PROJECT_VERSION_PATCH", components[2]),
     ("CMAKE_PROJECT_VERSION_TWEAK", components[3])]
  }

  /** Pair 2k is PROJECT_VERSION<suffix k>, pair 2k+1 <name>_VERSION<suffix k>, both with suffix k's value. */
  lemma VersionPairsShape(name: string, versionString: string, components: seq<string>, k: nat)
    requires |components| == MaxVersionComponents && k < 5
    ensures var pairs := VersionPairs(name, versionString, components);
      var value := VersionValue(versionString, components, k);
      && pairs[2 * k] == ("PROJECT" + VersionSuffixes[k], value)
      && pairs[2 * k + 1] == (name + VersionSuffixes[k], value)
  {
    var suffix := VersionSuffixes[k];
    var variable := "PROJECT" + suffix;
    if k == 0 {
      assert suffix == "_VERSION";
      assert variable == "PROJECT_VERSION";
    } else if k == 1 {
      assert suffix == "_VERSION_MAJOR";
      assert variable == "PROJECT_VERSION_MAJOR";
    } else if k == 2 {
      assert suffix == "_VERSION_MINOR";
      assert variable == "PROJECT_VERSION_MINOR";
    } else if k == 3 {
      assert suffix == "_VERSION_PATCH";
      assert variable == "PROJECT_VERSION_PATCH";
    } else {
      assert suffix == "_VERSION_TWEAK";
      assert variable == "PROJECT_VERSION_TWEAK";
    }
  }

  /** Pair k is CMAKE_PROJECT_VERSION<suffix k> with suffix k's value. */
  lemma TopLevelVersionPairsShape(versionString: string, components: seq<string>, k: nat)
    requires |components| == MaxVersionComponents && k < 5
    ensures TopLevelVersionPairs(versionString, components)[k] ==
      ("CMAKE_PROJECT" + VersionSuffixes[k], VersionValue(versionString, components, k))
  {
    var pairs := TopLevelVersionPairs(versionString, components);
    var suffix := VersionSuffixes[k];
    var variable := "CMAKE_PROJECT" + suffix;
    if k == 0 {
      assert suffix == "_VERSION";
      assert variable == "CMAKE_PROJECT_VERSION";
    } else if k == 1 {
      assert suffix == "_VERSION_MAJOR";
      assert variable == "CMAKE_PROJECT_VERSION_MAJOR";
    } else if k == 2 {
      assert suffix == "_VERSION_MINOR";
      assert variable == "CMAKE_PROJECT_VERSION_MINOR";
    } else if k == 3 {
      assert suffix == "_VERSION_PATCH";
      assert variable == "CMAKE_PROJECT_VERSION_PATCH";
    } else {
      assert suffix == "_VERSION_TWEAK";
      assert variable == "CMAKE_PROJECT_VERSION_TWEAK";
    }
    assert pairs[k].0 == variable;
  }

  /** The variables after each (name, value) pair is assigned in turn. */
  function Assigned(definitions: map<string, string>, pairs: seq<(string, string)>): map<string, string>
  {
    if pairs == [] then definitions
    else Assigned(definitions, pairs[..|pairs| - 1])[pairs[|pairs| - 1].0 := pairs[|pairs| - 1].1]
  }

  /** The state after CondSet on each (name, value) pair in turn. */
  function CondSetAll(st: MakefileState, isRoot: bool, pairs: seq<(string, string)>): MakefileState
  {
    if pairs == [] then st
    else CondSet(CondSetAll(st, isRoot, pairs[..|pairs| - 1]), isRoot, pairs[|pairs| - 1].0, pairs[|pairs| - 1].1)
  }

  /** The version variables set, then the top-level ones. */
  function VersionSet(st: MakefileState, isRoot: bool, name: string, versionString: string, components: seq<string>): MakefileState
    requires |components| == MaxVersionComponents
  {
    var s := st.(definitions := Assigned(st.definitions, VersionPairs(name, versionString, components)));
    CondSetAll(s, isRoot, TopLevelVersionPairs(versionString, components))
  }

  lemma CondSetAllStep(st: MakefileState, isRoot: bool, pairs: seq<(string, string)>, k: nat)
    requires k < |pairs|
    ensures CondSetAll(st, isRoot, pairs[..k + 1]) == CondSet(CondSetAll(st, isRoot, pairs[..k]), isRoot, pairs[k].0, pairs[k].1)
  {
    assert pairs[..k + 1][..k] == pairs[..k];
  }

  /** The version variables and then the top-level ones. */
  method SetVersionVariables(mf: Makefile, name: string, versionString: string, components: seq<string>)
    requires |components| == MaxVersionComponents
    modifies mf
    ensures mf.State() == VersionSet(old(mf.State()), mf.isRoot, name, versionString, components)
  {
    VersionAssignedPairs(mf.definitions, name, versionString, components);
    AssignVersionVariables(mf, name, versionString, components);
    SetTopLevelVersionVariables(mf, versionString, components);
  }

  /** The ten version variables assigned in the order the command assigns them. */
  function VersionAssigned(definitions: map<string, string>, name: string, versionString: string, components: seq<string>)
    : map<string, string>
    requires |components| == MaxVersionComponents
  {
    definitions["PROJECT_VERSION" := versionString][name + "_VERSION" := versionString]
      ["PROJECT_VERSION_MAJOR" := components[0]][name + "_VERSION_MAJOR" := components[0]]
      ["PROJECT_VERSION_MINOR" := components[1]][name + "_VERSION_MINOR" := components[1]]
      ["PROJECT_VERSION_PATCH" := components[2]][name + "_VERSION_PATCH" := components[2]]
      ["PROJECT_VERSION_TWEAK" := components[3]][name + "_VERSION_TWEAK" := components[3]]
  }

  /** That is the assignment of the version pairs in turn. */
  lemma VersionAssignedPairs(definitions: map<string, string>, name: string, versionString: string, components: seq<string>)
    requires |components| == MaxVersionComponents
    ensures VersionAssigned(definitions, name, versionString, components) ==
      Assigned(definitions, VersionPairs(name, versionString, components))
  {
    var pairs := VersionPairs(name, versionString, components);
    var version := [("PROJECT_VERSION", versionString), (name + "_VERSION", versionString)];
    var major := [("PROJECT_VERSION_MAJOR", components[0]), (name + "_VERSION_MAJOR", components[0])];
    var minor := [("PROJECT_VERSION_MINOR", components[1]), (name + "_VERSION_MINOR", components[1])];
    var patch := [("PROJECT_VERSION_PATCH", components[2]), (name + "_VERSION_PATCH", components[2])];
    var tweak := [("PROJECT_VERSION_TWEAK", components[3]), (name + "_VERSION_TWEAK", components[3])];
    assert pairs == version + major + minor + patch + tweak;
    AssignedAppend(definitions, version + major + minor + patch, tweak);
    AssignedAppend(definitions, version + major + minor, patch);
    AssignedAppend(definitions, version + major, minor);
    AssignedAppend(definitions, version, major);
    var afterVersion := Assigned(definitions, version);
    AssignedPair(definitions, version[0], version[1]);
    var afterMajor := Assigned(afterVersion, major);
    AssignedPair(afterVersion, major[0], major[1]);
    var afterMinor := Assigned(afterMajor, minor);
    AssignedPair(afterMajor, minor[0], minor[1]);
    var afterPatch := Assigned(afterMinor, patch);
    AssignedPair(afterMinor, patch[0], patch[1]);
    AssignedPair(afterPatch, tweak[0], tweak[1]);
  }

  lemma AssignedPair(definitions: map<string, string>, x: (string, string), y: (string, string))
    ensures Assigned(definitions, [x, y]) == definitions[x.0 := x.1][y.0 := y.1]
  {
    assert [x][..0] == [];
    assert Assigned(definitions, [x]) == definitions[x.0 := x.1];
    assert [x, y][..1] == [x];
  }

  /** Assigning a + b is assigning a, then b. */
  lemma {:induction false} AssignedAppend(definitions: map<string, string>, a: seq<(string, string)>, b: seq<(string, string)>)
    ensures Assigned(definitions, a + b) == Assigned(Assigned(definitions, a), b)
    decreases |b|
  {
    if b == [] {
      assert a + b == a;
    } else {
      var init := b[..|b| - 1];
      AssignedAppend(definitions, a, init);
      assert (a + b)[..|a + b| - 1] == a + init;
    }
  }

  method AssignVersionVariables(mf: Makefile, name: string, versionString: string, components: seq<string>)
    requires |components| == MaxVersionComponents
    modifies mf
    ensures mf.State() == old(mf.State()).(definitions := VersionAssigned(old(mf.definitions), name, versionString, components))
  {
    var vv := name + "_VERSION";
    mf.AddDefinition("PROJECT_VERSION", versionString);
    mf.AddDefinition(vv, versionString);
    vv := name + "_VERSION_MAJOR";
    mf.AddDefinition("PROJECT_VERSION_MAJOR", components[0]);
    mf.AddDefinition(vv, components[0]);
    vv := name + "_VERSION_MINOR";
    mf.AddDefinition("PROJECT_VERSION_MINOR", components[1]);
    mf.AddDefinition(vv, components[1]);
    vv := name + "_VERSION_PATCH";
    mf.AddDefinition("PROJECT_VERSION_PATCH", components[2]);
    mf.AddDefinition(vv, components[2]);
    vv := name + "_VERSION_TWEAK";
    mf.AddDefinition("PROJECT_VERSION_TWEAK", components[3]);
    mf.AddDefinition(vv, components[3]);
  }

  method SetTopLevelVersionVariables(mf: Makefile, versionString: string, components: seq<string>)
    requires |components| == MaxVersionComponents
    modifies mf
    ensures mf.State() == CondSetAll(old(mf.State()), mf.isRoot, TopLevelVersionPairs(versionString, components))
  {
    ghost var s0 := mf.State();
    ghost var top := TopLevelVersionPairs(versionString, components);
    assert top[..0] == [];
    TopLevelCMakeVarCondSet(mf, "CMAKE_PROJECT_VERSION", versionString);
    CondSetAllStep(s0, mf.isRoot, top, 0);
    TopLevelCMakeVarCondSet(mf, "CMAKE_PROJECT_VERSION_MAJOR", components[0]);
    CondSetAllStep(s0, mf.isRoot, top, 1);
    TopLevelCMakeVarCondSet(mf, "CMAKE_PROJECT_VERSION_MINOR", components[1]);
    CondSetAllStep(s0, mf.isRoot, top, 2);
    TopLevelCMakeVarCondSet(mf, "CMAKE_PROJECT_VERSION_PATCH", components[2]);
    CondSetAllStep(s0, mf.isRoot, top, 3);
    TopLevelCMakeVarCondSet(mf, "CMAKE_PROJECT_VERSION_TWEAK", components[3]);
    CondSetAllStep(s0, mf.isRoot, top, 4);
    assert top[..5] == top;
  }

  /** Equal names carry equal values. */
  predicate Consistent(pairs: seq<(string, string)>)
  {
    forall i, j :: 0 <= i < |pairs| && 0 <= j < |pairs| && pairs[i].0 == pairs[j].0 ==> pairs[i].1 == pairs[j].1
  }

  /** The version suffixes end differently, so names built on different suffixes differ. */
  lemma SuffixesDiffer(x: string, y: string, i: nat, j: nat)
    requires i < 5 && j < 5 && i != j
    ensures x + VersionSuffixes[i] != y + VersionSuffixes[j]
  {
    var s, t := VersionSuffixes[i], VersionSuffixes[j];
    if s[|s| - 1] != t[|t| - 1] {
      EndsDiffer(x, s, y, t, 0);
    } else {
      EndsDiffer(x, s, y, t, 2);
    }
  }

  /** Pairs whose names end in a version suffix and whose values are that suffix's value are consistent. */
  lemma SuffixedConsistent(pairs: seq<(string, string)>, prefixes: seq<string>, ks: seq<nat>,
                           versionString: string, components: seq<string>)
    requires |components| == MaxVersionComponents
    requires |prefixes| == |pairs| && |ks| == |pairs|
    requires forall i :: 0 <= i < |pairs| ==>
      (ks[i] < 5 && pairs[i] == (prefixes[i] + VersionSuffixes[ks[i]], VersionValue(versionString, components, ks[i])))
    ensures Consistent(pairs)
  {
    forall i, j | 0 <= i < |pairs| && 0 <= j < |pairs| && pairs[i].0 == pairs[j].0
      ensures pairs[i].1 == pairs[j].1
    {
      if ks[i] != ks[j] {
        SuffixesDiffer(prefixes[i], prefixes[j], ks[i], ks[j]);
      }
    }
  }

  /** All fifteen version variables, the top-level ones included, are consistent. */
  lemma VersionPairsConsistent(name: string, versionString: string, components: seq<string>)
    requires |components| == MaxVersionComponents
    ensures Consistent(VersionPairs(name, versionString, components) + TopLevelVersionPairs(versionString, components))
  {
    var pairs := VersionPairs(name, versionString, components) + TopLevelVersionPairs(versionString, components);
    var prefixes := seq(15, i requires 0 <= i < 15 =>
      if i >= 10 then "CMAKE_PROJECT" else if i % 2 == 0 then "PROJECT" else name);
    var ks := seq(15, i requires 0 <= i < 15 => if i >= 10 then i - 10 else i / 2);
    forall i | 0 <= i < 15
      ensures pairs[i] == (prefixes[i] + VersionSuffixes[ks[i]], VersionValue(versionString, components, ks[i]))
    {
      if i < 10 {
        VersionPairsShape(name, versionString, components, i / 2);
      } else {
        TopLevelVersionPairsShape(versionString, components, i - 10);
      }
    }
    SuffixedConsistent(pairs, prefixes, ks, versionString, components);
  }

  /** With consistent pairs, each name ends up holding its value. */
  lemma {:induction false} AssignedHolds(definitions: map<string, string>, pairs: seq<(string, string)>, k: nat)
    requires Consistent(pairs) && k < |pairs|
    ensures pairs[k].0 in Assigned(definitions, pairs) && Assigned(definitions, pairs)[pairs[k].0] == pairs[k].1
  {
    var n := |pairs| - 1;
    if k < n {
      assert Consistent(pairs[..n]) by {
        forall i, j | 0 <= i < n && 0 <= j < n && pairs[..n][i].0 == pairs[..n][j].0
          ensures pairs[..n][i].1 == pairs[..n][j].1
        {
          assert pairs[..n][i] == pairs[i] && pairs[..n][j] == pairs[j];
        }
      }
      AssignedHolds(definitions, pairs[..n], k);
      assert pairs[..n][k] == pairs[k];
    }
  }

  /** A name no pair carries keeps its value. */
  lemma {:induction false} AssignedOther(definitions: map<string, string>, pairs: seq<(string, string)>, name: string)
    requires forall i :: 0 <= i < |pairs| ==> pairs[i].0 != name
    ensures (name in Assigned(definitions, pairs) <==> name in definitions)
    ensures name in definitions ==> Assigned(definitions, pairs)[name] == definitions[name]
  {
    if pairs != [] {
      AssignedOther(definitions, pairs[..|pairs| - 1], name);
    }
  }

  /** A name already holding its value keeps it through CondSet calls that agree on it. */
  lemma {:induction false} CondSetAllKeeps(st: MakefileState, isRoot: bool, pairs: seq<(string, string)>, name: string, value: string)
    requires Visible(st, name) == Some(value)
    requires forall i :: 0 <= i < |pairs| && pairs[i].0 == name ==> pairs[i].1 == value
    ensures Visible(CondSetAll(st, isRoot, pairs), name) == Some(value)
  {
    if pairs != [] {
      var n := |pairs| - 1;
      CondSetAllKeeps(st, isRoot, pairs[..n], name, value);
    }
  }

  /** A name no CondSet call carries keeps what is visible. */
  lemma {:induction false} CondSetAllOther(st: MakefileState, isRoot: bool, pairs: seq<(string, string)>, name: string)
    requires forall i :: 0 <= i < |pairs| ==> pairs[i].0 != name
    ensures Visible(CondSetAll(st, isRoot, pairs), name) == Visible(st, name)
  {
    if pairs != [] {
      CondSetAllOther(st, isRoot, pairs[..|pairs| - 1], name);
    }
  }

  /** A name carried by some CondSet call, unset before or in the top-level makefile, ends up holding its value. */
  lemma {:induction false} CondSetAllSets(st: MakefileState, isRoot: bool, pairs: seq<(string, string)>, k: nat)
    requires k < |pairs| && (isRoot || Visible(st, pairs[k].0).None?)
    requires forall i :: 0 <= i < |pairs| && pairs[i].0 == pairs[k].0 ==> pairs[i].1 == pairs[k].1
    ensures Visible(CondSetAll(st, isRoot, pairs), pairs[k].0) == Some(pairs[k].1)
  {
    var n := |pairs| - 1;
    if k < n {
      CondSetAllSets(st, isRoot, pairs[..n], k);
    } else if exists i :: 0 <= i < n && pairs[i].0 == pairs[k].0 {
      var i :| 0 <= i < n && pairs[i].0 == pairs[k].0;
      CondSetAllSets(st, isRoot, pairs[..n], i);
    } else {
      CondSetAllOther(st, isRoot, pairs[..n], pairs[k].0);
    }
  }

  /** Both halves of a consistent pair list */
  lemma ConsistentHalves(pairs: seq<(string, string)>, top: seq<(string, string)>)
    requires Consistent(pairs + top)
    ensures Consistent(pairs) && Consistent(top)
    ensures forall i, j :: 0 <= i < |pairs| && 0 <= j < |top| && pairs[i].0 == top[j].0 ==> pairs[i].1 == top[j].1
  {
    var all := pairs + top;
    assert forall i :: 0 <= i < |pairs| ==> all[i] == pairs[i];
    assert forall j :: 0 <= j < |top| ==> all[|pairs| + j] == top[j];
  }

  /** After the assignments and the CondSet calls, an assigned name holds its value. */
  lemma AssignedThenCondSet(st: MakefileState, isRoot: bool, pairs: seq<(string, string)>, top: seq<(string, string)>, j: nat)
    requires Consistent(pairs + top) && j < |pairs|
    ensures Visible(CondSetAll(st.(definitions := Assigned(st.definitions, pairs)), isRoot, top), pairs[j].0) == Some(pairs[j].1)
  {
    ConsistentHalves(pairs, top);
    AssignedHolds(st.definitions, pairs, j);
    CondSetAllKeeps(st.(definitions := Assigned(st.definitions, pairs)), isRoot, top, pairs[j].0, pairs[j].1);
  }

  /** After the assignments and the CondSet calls, a CondSet name unset before, or at the top level, holds its value. */
  lemma CondSetAfterAssigned(st: MakefileState, isRoot: bool, pairs: seq<(string, string)>, top: seq<(string, string)>, k: nat)
    requires Consistent(pairs + top) && k < |top|
    requires isRoot || Visible(st, top[k].0).None?
    ensures Visible(CondSetAll(st.(definitions := Assigned(st.definitions, pairs)), isRoot, top), top[k].0) == Some(top[k].1)
  {
    ConsistentHalves(pairs, top);
    var s1 := st.(definitions := Assigned(st.definitions, pairs));
    if exists j :: 0 <= j < |pairs| && pairs[j].0 == top[k].0 {
      var j :| 0 <= j < |pairs| && pairs[j].0 == top[k].0;
      AssignedThenCondSet(st, isRoot, pairs, top, j);
    } else {
      AssignedOther(st.definitions, pairs, top[k].0);
      assert Visible(s1, top[k].0) == Visible(st, top[k].0);
      CondSetAllSets(s1, isRoot, top, k);
    }
  }

  /**
   * After the version is set, PROJECT_VERSION<suffix> and
   * <name>_VERSION<suffix> hold the version string (for "_VERSION") or the
   * component (for the four others); CMAKE_PROJECT_VERSION<suffix> does too
   * at the top level or when it was not set before.
   */
  lemma VersionSetSpec(st: MakefileState, isRoot: bool, name: string, versionString: string, components: seq<string>, k: nat)
    requires |components| == MaxVersionComponents && k < 5
    ensures var s := VersionSet(st, isRoot, name, versionString, components);
      var value := VersionValue(versionString, components, k);
      && Visible(s, "PROJECT" + VersionSuffixes[k]) == Some(value)
      && Visible(s, name + VersionSuffixes[k]) == Some(value)
      && (isRoot || Visible(st, "CMAKE_PROJECT" + VersionSuffixes[k]).None? ==>
            Visible(s, "CMAKE_PROJECT" + VersionSuffixes[k]) == Some(value))
  {
    var pairs := VersionPairs(name, versionString, components);
    var top := TopLevelVersionPairs(versionString, components);
    VersionPairsConsistent(name, versionString, components);
    VersionPairsShape(name, versionString, components, k);
    TopLevelVersionPairsShape(versionString, components, k);
    AssignedThenCondSet(st, isRoot, pairs, top, 2 * k);
    AssignedThenCondSet(st, isRoot, pairs, top, 2 * k + 1);
    if isRoot || Visible(st, top[k].0).None? {
      CondSetAfterAssigned(st, isRoot, pairs, top, k);
    }
  }

  /** The version variables in the order they are cleared; the top-level ones only in the top-level makefile. */
  function VersionVariableNames(name: string, isRoot: bool): seq<string>
  {
    ["PROJECT_VERSION", "PROJECT_VERSION_MAJOR", "PROJECT_VERSION_MINOR", "PROJECT_VERSION_PATCH", "PROJECT_VERSION_TWEAK",
     name + "_VERSION", name + "_VERSION_MAJOR", name + "_VERSION_MINOR", name + "_VERSION_PATCH", name + "_VERSION_TWEAK"]
    + (if isRoot
       then ["CMAKE_PROJECT_VERSION", "CMAKE_PROJECT_VERSION_MAJOR", "CMAKE_PROJECT_VERSION_MINOR",
             "CMAKE_PROJECT_VERSION_PATCH", "CMAKE_PROJECT_VERSION_TWEAK"]
       else [])
  }

  /**
   * Each name in turn whose value is visible and not empty: under WARN it is
   * listed (unless the call was injected), otherwise it is set to "".
   */
  function Cleared(st: MakefileState, names: seq<string>, warn: bool, injected: bool): (MakefileState, string)
  {
    if names == [] then (st, "")
    else
      var previous := Cleared(st, names[..|names| - 1], warn, injected);
      var s, listed := previous.0, previous.1;
      var n := names[|names| - 1];
      var v := Visible(s, n);
      if v.Some? && v.value != "" then
        if warn then (s, if injected then listed else listed + EmptyItemPrefix + n)
        else (s.(definitions := s.definitions[n := ""]), listed)
      else (s, listed)
  }

  method ClearVersionVariables(mf: Makefile, names: seq<string>, warn: bool, injected: bool) returns (listed: string)
    modifies mf
    ensures (mf.State(), listed) == Cleared(old(mf.State()), names, warn, injected)
  {
    listed := "";
    var i := 0;
    while i < |names|
      invariant i <= |names|
      invariant (mf.State(), listed) == Cleared(old(mf.State()), names[..i], warn, injected)
    {
      assert names[..i + 1][..i] == names[..i];
      var v := mf.GetDefinition(names[i]);
      if v.Some? && v.value != "" {
        if warn {
          if !injected {
            listed := listed + EmptyItemPrefix + names[i];
          }
        } else {
          mf.AddDefinition(names[i], "");
        }
      }
      i := i + 1;
    }
    assert names[..i] == names;
  }

  /** The value is visible and not empty. */
  predicate NonEmpty(st: MakefileState, name: string)
  {
    Visible(st, name).Some? && Visible(st, name).value != ""
  }

  /**
   * Under WARN nothing changes; the list is empty when the call was
   * injected, and otherwise empty exactly when none of the variables holds
   * a value.
   */
  lemma {:induction false} ClearedWarn(st: MakefileState, names: seq<string>, injected: bool)
    ensures var r := Cleared(st, names, true, injected);
      && r.0 == st
      && (injected ==> r.1 == "")
      && (!injected ==> (r.1 == "" <==> forall i :: 0 <= i < |names| ==> !NonEmpty(st, names[i])))
  {
    if names != [] {
      var n := |names| - 1;
      ClearedWarn(st, names[..n], injected);
      if !injected {
        var r := Cleared(st, names, true, injected);
        if r.1 == "" {
          forall i | 0 <= i < |names|
            ensures !NonEmpty(st, names[i])
          {
            if i < n {
              assert names[..n][i] == names[i];
            }
          }
        } else {
          assert forall i :: 0 <= i < n ==> names[..n][i] == names[i];
        }
      }
    }
  }

  /**
   * Otherwise every listed variable that holds a value now holds "", no
   * other variable changes, and nothing is listed.
   */
  lemma {:induction false} ClearedNew(st: MakefileState, names: seq<string>, injected: bool, other: string)
    requires forall i :: 0 <= i < |names| ==> names[i] != other
    ensures var r := Cleared(st, names, false, injected);
      && r.1 == ""
      && r.0.(definitions := st.definitions) == st
      && Visible(r.0, other) == Visible(st, other)
      && forall i :: 0 <= i < |names| ==>
           Visible(r.0, names[i]) == if Visible(st, names[i]).None? then None else Some("")
  {
    if names != [] {
      var n := |names| - 1;
      ClearedNew(st, names[..n], injected, other);
      forall m | m in names[..n] ensures m != other {
      }
      var r := Cleared(st, names, false, injected);
      var p := Cleared(st, names[..n], false, injected);
      forall i | 0 <= i < |names|
        ensures Visible(r.0, names[i]) == if Visible(st, names[i]).None? then None else Some("")
      {
        if names[i] != names[n] {
          assert names[..n][i] == names[i];
        } else if exists j :: 0 <= j < n && names[j] == names[n] {
          var j :| 0 <= j < n && names[j] == names[n];
          assert names[..n][j] == names[j];
        } else {
          ClearedNewOther(st, names[..n], injected, names[n]);
        }
      }
    }
  }

  lemma {:induction false} ClearedNewOther(st: MakefileState, names: seq<string>, injected: bool, other: string)
    requires forall i :: 0 <= i < |names| ==> names[i] != other
    ensures Visible(Cleared(st, names, false, injected).0, other) == Visible(st, other)
  {
    if names != [] {
      ClearedNewOther(st, names[..|names| - 1], injected, other);
    }
  }

  // ----- The version phase -----

  /** Where a phase leaves the command: returned with a fatal error, or going on. */
  datatype Phase = Halted(st: MakefileState) | Proceeding(st: MakefileState)

  /** A fatal error: the message, and the flag set. */
  function Fatal(st: MakefileState, text: string): MakefileState
  {
    st.(messages := st.messages + [FatalError(text)], fatalErrorOccurred := true)
  }

  method IssueFatal(mf: Makefile, text: string)
    modifies mf
    ensures mf.State() == Fatal(old(mf.State()), text)
  {
    mf.IssueMessage(FatalError(text));
    mf.SetFatalErrorOccurred();
  }

  /** The CMP0048 warning listing the variables that would be set to empty. */
  function EmptyWarning(policyWarning: string, listed: string): Message
  {
    AuthorWarning(policyWarning + EmptyListHeader + listed)
  }

  /**
   * With VERSION: fatal unless CMP0048 is NEW, fatal for an invalid
   * version, otherwise the version variables are set. Without it, unless
   * CMP0048 is OLD, the version variables are cleared (NEW) or listed in a
   * warning (WARN).
   */
  function VersionPhase(st: MakefileState, env: Environment, name: string, p: Parsed): Phase
  {
    if p.haveVersion then
      if env.cmp0048 == Old || env.cmp0048 == Warn then Halted(Fatal(st, PolicyText))
      else if !ValidVersion(p.version) then Halted(Fatal(st, InvalidVersionText(p.version)))
      else
        var strings := if env.cmp0096 == Old || env.cmp0096 == Warn
          then OldVersionStrings(p.version) else NewVersionStrings(p.version);
        Proceeding(VersionSet(st, env.isRoot, name, strings.0, strings.1))
    else if env.cmp0048 != Old then
      var cleared := Cleared(st, VersionVariableNames(name, env.isRoot), env.cmp0048 == Warn, p.injected);
      var s := cleared.0;
      if cleared.1 != "" then Proceeding(s.(messages := s.messages + [EmptyWarning(env.policyWarning, cleared.1)]))
      else Proceeding(s)
    else Proceeding(st)
  }

  method VersionVariables(mf: Makefile, env: Environment, name: string, p: Parsed) returns (halted: bool)
    requires Describes(env, mf)
    modifies mf
    ensures (if halted then Halted(mf.State()) else Proceeding(mf.State())) == VersionPhase(old(mf.State()), env, name, p)
  {
    if p.haveVersion {
      if env.cmp0048 == Old || env.cmp0048 == Warn {
        IssueFatal(mf, PolicyText);
        return true;
      }
      if !ValidVersion(p.version) {
        IssueFatal(mf, InvalidVersionText(p.version));
        return true;
      }
      var versionString, components := VersionStrings(p.version, env.cmp0096);
      SetVersionVariables(mf, name, versionString, components);
    } else if env.cmp0048 != Old {
      var vv := ["PROJECT_VERSION", "PROJECT_VERSION_MAJOR", "PROJECT_VERSION_MINOR", "PROJECT_VERSION_PATCH",
                 "PROJECT_VERSION_TWEAK", name + "_VERSION", name + "_VERSION_MAJOR", name + "_VERSION_MINOR",
                 name + "_VERSION_PATCH", name + "_VERSION_TWEAK"];
      if mf.isRoot {
        vv := vv + ["CMAKE_PROJECT_VERSION", "CMAKE_PROJECT_VERSION_MAJOR", "CMAKE_PROJECT_VERSION_MINOR",
                    "CMAKE_PROJECT_VERSION_PATCH", "CMAKE_PROJECT_VERSION_TWEAK"];
      }
      assert vv == VersionVariableNames(name, env.isRoot);
      var listed := ClearVersionVariables(mf, vv, env.cmp0048 == Warn, p.injected);
      if listed != "" {
        mf.IssueMessage(EmptyWarning(env.policyWarning, listed));
      }
    }
    return false;
  }

  /**
   * The phase halts exactly when VERSION is given and CMP0048 is not NEW or
   * the version is invalid; it then adds one fatal error and changes
   * nothing else. Without VERSION under OLD nothing changes.
   */
  lemma VersionPhaseHalts(st: MakefileState, env: Environment, name: string, p: Parsed)
    ensures var r := VersionPhase(st, env, name, p);
      && (r.Halted? <==> p.haveVersion && (env.cmp0048 == Old || env.cmp0048 == Warn || !ValidVersion(p.version)))
      && (r.Halted? && (env.cmp0048 == Old || env.cmp0048 == Warn) ==> r.st == Fatal(st, PolicyText))
      && (r.Halted? && env.cmp0048 != Old && env.cmp0048 != Warn ==> r.st == Fatal(st, InvalidVersionText(p.version)))
      && (!p.haveVersion && env.cmp0048 == Old ==> r == Proceeding(st))
  {
  }

  /**
   * A valid VERSION under CMP0048 NEW sets PROJECT_VERSION<suffix> and
   * <name>_VERSION<suffix> to the version string and its components, as
   * CMP0096 says they are read.
   */
  lemma VersionPhaseSets(st: MakefileState, env: Environment, name: string, p: Parsed, k: nat)
    requires p.haveVersion && env.cmp0048 != Old && env.cmp0048 != Warn && ValidVersion(p.version) && k < 5
    ensures var strings := if env.cmp0096 == Old || env.cmp0096 == Warn
              then OldVersionStrings(p.version) else NewVersionStrings(p.version);
      var value := VersionValue(strings.0, strings.1, k);
      var s := VersionPhase(st, env, name, p).st;
      && Visible(s, "PROJECT" + VersionSuffixes[k]) == Some(value)
      && Visible(s, name + VersionSuffixes[k]) == Some(value)
  {
    var strings := if env.cmp0096 == Old || env.cmp0096 == Warn
      then OldVersionStrings(p.version) else NewVersionStrings(p.version);
    VersionSetSpec(st, env.isRoot, name, strings.0, strings.1, k);
  }

  // ----- Description, homepage, languages and the includes -----

  /** The languages after the checks: NONE for a LANGUAGES keyword without names. */
  function CheckedLanguages(p: Parsed): seq<string>
  {
    if p.haveLanguages && p.languages == [] then ["NONE"] else p.languages
  }

  /** The description and homepage variables, the languages enabled (C and CXX by default), then the two includes. */
  function Finished(st: MakefileState, env: Environment, name: string, description: string, homepage: string,
                    languages: seq<string>): Outcome
  {
    var s1 := st.(definitions := st.definitions["PROJECT_DESCRIPTION" := description][name + "_DESCRIPTION" := description]);
    var s2 := CondSet(s1, env.isRoot, "CMAKE_PROJECT_DESCRIPTION", description);
    var s3 := s2.(definitions := s2.definitions["PROJECT_HOMEPAGE_URL" := homepage][name + "_HOMEPAGE_URL" := homepage]);
    var s4 := CondSet(s3, env.isRoot, "CMAKE_PROJECT_HOMEPAGE_URL", homepage);
    var s5 := s4.(enabledLanguages := s4.enabledLanguages + [if languages == [] then DefaultLanguages else languages]);
    var first := IncludeOutcome(s5, "CMAKE_PROJECT_INCLUDE", env.readable);
    if !first.ok then first
    else IncludeOutcome(first.st, "CMAKE_PROJECT_" + name + "_INCLUDE", env.readable)
  }

  method Finish(mf: Makefile, env: Environment, name: string, description: string, homepage: string,
                languages: seq<string>)
    returns (ok: bool, error: string)
    requires Describes(env, mf)
    modifies mf
    ensures Outcome(ok, error, mf.State()) == Finished(old(mf.State()), env, name, description, homepage, languages)
  {
    mf.AddDefinition("PROJECT_DESCRIPTION", description);
    mf.AddDefinition(name + "_DESCRIPTION", description);
    TopLevelCMakeVarCondSet(mf, "CMAKE_PROJECT_DESCRIPTION", description);
    mf.AddDefinition("PROJECT_HOMEPAGE_URL", homepage);
    mf.AddDefinition(name + "_HOMEPAGE_URL", homepage);
    TopLevelCMakeVarCondSet(mf, "CMAKE_PROJECT_HOMEPAGE_URL", homepage);
    var enabled := languages;
    if enabled == [] {
      enabled := DefaultLanguages;
    }
    mf.EnableLanguage(enabled);
    ok, error := IncludeByVariable(mf, "CMAKE_PROJECT_INCLUDE", env.readable);
    if !ok {
      return;
    }
    ok, error := IncludeByVariable(mf, "CMAKE_PROJECT_" + name + "_INCLUDE", env.readable);
  }

  /** Languages named without LANGUAGES after VERSION, DESCRIPTION or HOMEPAGE_URL. */
  predicate Misplaced(p: Parsed)
  {
    (p.haveVersion || p.haveDescription || p.haveHomepage) && !p.haveLanguages && p.languages != []
  }

  /** What follows a successful reading of the arguments. */
  function Configured(st: MakefileState, env: Environment, name: string, p: Parsed): Outcome
  {
    if Misplaced(p) then Outcome(true, "", Fatal(st, MisplacedText))
    else
      match VersionPhase(st, env, name, p)
      case Halted(s) => Outcome(true, "", s)
      case Proceeding(s) => Finished(s, env, name, p.description, p.homepage, CheckedLanguages(p))
  }

  method Configure(mf: Makefile, env: Environment, name: string, p: Parsed) returns (ok: bool, error: string)
    requires Describes(env, mf)
    modifies mf
    ensures Outcome(ok, error, mf.State()) == Configured(old(mf.State()), env, name, p)
  {
    if (p.haveVersion || p.haveDescription || p.haveHomepage) && !p.haveLanguages && p.languages != [] {
      IssueFatal(mf, MisplacedText);
      return true, "";
    }
    var languages := p.languages;
    if p.haveLanguages && languages == [] {
      languages := ["NONE"];
    }
    var halted := VersionVariables(mf, env, name, p);
    if halted {
      return true, "";
    }
    ok, error := Finish(mf, env, name, p.description, p.homepage, languages);
  }

  /**
   * The languages enabled: those named, NONE for LANGUAGES without names,
   * C and CXX when none are named; nothing is enabled after a misplaced
   * language or a version error.
   */
  lemma ConfiguredLanguages(st: MakefileState, env: Environment, name: string, p: Parsed)
    ensures var r := Configured(st, env, name, p);
      && (Misplaced(p) || VersionPhase(st, env, name, p).Halted? ==> r.st.enabledLanguages == st.enabledLanguages)
      && (!Misplaced(p) && VersionPhase(st, env, name, p).Proceeding? ==>
            r.st.enabledLanguages == st.enabledLanguages +
              [if p.languages != [] then p.languages else if p.haveLanguages then ["NONE"] else DefaultLanguages])
  {
    var v := VersionPhase(st, env, name, p);
    if !Misplaced(p) && v.Proceeding? {
      VersionSetKeepsLanguages(st, env, name, p);
      FinishedLanguages(v.st, env, name, p.description, p.homepage, CheckedLanguages(p));
    }
  }

  /** The includes leave the enabled languages as they are. */
  lemma FinishedLanguages(st: MakefileState, env: Environment, name: string, description: string, homepage: string,
                          languages: seq<string>)
    ensures Finished(st, env, name, description, homepage, languages).st.enabledLanguages ==
      st.enabledLanguages + [if languages == [] then DefaultLanguages else languages]
  {
    var s1 := st.(definitions := st.definitions["PROJECT_DESCRIPTION" := description][name + "_DESCRIPTION" := description]);
    var s2 := CondSet(s1, env.isRoot, "CMAKE_PROJECT_DESCRIPTION", description);
    var s3 := s2.(definitions := s2.definitions["PROJECT_HOMEPAGE_URL" := homepage][name + "_HOMEPAGE_URL" := homepage]);
    var s4 := CondSet(s3, env.isRoot, "CMAKE_PROJECT_HOMEPAGE_URL", homepage);
    CondSetKeepsLanguages(s1, env.isRoot, "CMAKE_PROJECT_DESCRIPTION", description);
    CondSetKeepsLanguages(s3, env.isRoot, "CMAKE_PROJECT_HOMEPAGE_URL", homepage);
    var s5 := s4.(enabledLanguages := s4.enabledLanguages + [if languages == [] then DefaultLanguages else languages]);
    var first := IncludeOutcome(s5, "CMAKE_PROJECT_INCLUDE", env.readable);
    IncludeKeepsLanguages(s5, "CMAKE_PROJECT_INCLUDE", env.readable);
    IncludeKeepsLanguages(first.st, "CMAKE_PROJECT_" + name + "_INCLUDE", env.readable);
  }

  lemma CondSetKeepsLanguages(st: MakefileState, isRoot: bool, name: string, value: string)
    ensures CondSet(st, isRoot, name, value).enabledLanguages == st.enabledLanguages
  {
  }

  lemma IncludeKeepsLanguages(st: MakefileState, variable: string, readable: set<string>)
    ensures IncludeOutcome(st, variable, readable).st.enabledLanguages == st.enabledLanguages
  {
  }

  lemma VersionSetKeepsLanguages(st: MakefileState, env: Environment, name: string, p: Parsed)
    requires VersionPhase(st, env, name, p).Proceeding?
    ensures VersionPhase(st, env, name, p).st.enabledLanguages == st.enabledLanguages
  {
    if p.haveVersion {
      var strings := if env.cmp0096 == Old || env.cmp0096 == Warn
        then OldVersionStrings(p.version) else NewVersionStrings(p.version);
      CondSetAllFields(st.(definitions := Assigned(st.definitions, VersionPairs(name, strings.0, strings.1))), env.isRoot,
                       TopLevelVersionPairs(strings.0, strings.1));
    } else if env.cmp0048 != Old {
      var names := VersionVariableNames(name, env.isRoot);
      if env.cmp0048 == Warn {
        ClearedWarn(st, names, p.injected);
      } else {
        ClearedNew(st, names, p.injected, "");
      }
    }
  }

  /** CondSet calls change only variables and cache entries. */
  lemma {:induction false} CondSetAllFields(st: MakefileState, isRoot: bool, pairs: seq<(string, string)>)
    ensures var s := CondSetAll(st, isRoot, pairs);
      s.(definitions := st.definitions, cache := st.cache) == st
  {
    if pairs != [] {
      CondSetAllFields(st, isRoot, pairs[..|pairs| - 1]);
    }
  }

  // ----- The command -----

  /**
   * project(): no arguments is an error; a failed include before returns
   * false; otherwise the names are set, the arguments read (their messages
   * issued), a repeated keyword ends the command with a fatal error, and
   * the rest follows.
   */
  function Project(st: MakefileState, env: Environment, args: seq<string>): Outcome
  {
    if args == [] then Outcome(false, ArgCountText, st)
    else
      var before := IncludeOutcome(st, "CMAKE_PROJECT_INCLUDE_BEFORE", env.readable);
      if !before.ok then before
      else
        var named := Named(before.st, env, args[0]);
        var reading := Reading(args);
        var s := named.(messages := named.messages + reading.1);
        match reading.0
        case RepeatedKeyword(_) => Outcome(true, "", s.(fatalErrorOccurred := true))
        case Arguments(p) => Configured(s, env, args[0], p)
  }

  method InitialPass(mf: Makefile, args: seq<string>, cmp0048: PolicyStatus, cmp0096: PolicyStatus,
                     readable: set<string>, policyWarning: string)
    returns (ok: bool, error: string)
    modifies mf
    ensures Outcome(ok, error, mf.State()) ==
      Project(old(mf.State()),
              Environment(mf.isRoot, mf.currentSourceDirectory, mf.currentBinaryDirectory,
                          cmp0048, cmp0096, readable, policyWarning),
              args)
  {
    var env := Environment(mf.isRoot, mf.currentSourceDirectory, mf.currentBinaryDirectory,
                           cmp0048, cmp0096, readable, policyWarning);
    if |args| == 0 {
      return false, ArgCountText;
    }
    ok, error := IncludeByVariable(mf, "CMAKE_PROJECT_INCLUDE_BEFORE", readable);
    if !ok {
      return;
    }
    var projectName := args[0];
    SetNames(mf, env, projectName);
    var outcome, messages := ParseArguments(args);
    mf.messages := mf.messages + messages;
    match outcome {
      case RepeatedKeyword(_) =>
        mf.SetFatalErrorOccurred();
        return true, "";
      case Arguments(p) =>
        ok, error := Configure(mf, env, projectName, p);
    }
  }

  /**
   * project() returns false only without arguments, with the argument count
   * error and nothing changed, or when an include names a file that cannot
   * be read, with that file in the error; it never fails with an empty
   * error and never succeeds with one.
   */
  lemma ProjectFails(st: MakefileState, env: Environment, args: seq<string>)
    ensures var o := Project(st, env, args);
      && (args == [] ==> o == Outcome(false, ArgCountText, st))
      && (o.ok ==> o.error == "")
      && (!o.ok && args != [] ==> exists file :: file !in env.readable && o.error == NotFoundPrefix + file)
  {
    if args != [] {
      var before := IncludeOutcome(st, "CMAKE_PROJECT_INCLUDE_BEFORE", env.readable);
      IncludeSpec(st, "CMAKE_PROJECT_INCLUDE_BEFORE", env.readable);
      if before.ok {
        var named := Named(before.st, env, args[0]);
        var reading := Reading(args);
        var s := named.(messages := named.messages + reading.1);
        if reading.0.Arguments? {
          var p := reading.0.parsed;
          if !Misplaced(p) && VersionPhase(s, env, args[0], p).Proceeding? {
            FinishedFails(VersionPhase(s, env, args[0], p).st, env, args[0], p.description, p.homepage, CheckedLanguages(p));
          }
        }
      }
    }
  }

  lemma FinishedFails(st: MakefileState, env: Environment, name: string, description: string, homepage: string,
                      languages: seq<string>)
    ensures var o := Finished(st, env, name, description, homepage, languages);
      && (o.ok ==> o.error == "")
      && (!o.ok ==> exists file :: file !in env.readable && o.error == NotFoundPrefix + file)
  {
    var s1 := st.(definitions := st.definitions["PROJECT_DESCRIPTION" := description][name + "_DESCRIPTION" := description]);
    var s2 := CondSet(s1, env.isRoot, "CMAKE_PROJECT_DESCRIPTION", description);
    var s3 := s2.(definitions := s2.definitions["PROJECT_HOMEPAGE_URL" := homepage][name + "_HOMEPAGE_URL" := homepage]);
    var s4 := CondSet(s3, env.isRoot, "CMAKE_PROJECT_HOMEPAGE_URL", homepage);
    var s5 := s4.(enabledLanguages := s4.enabledLanguages + [if languages == [] then DefaultLanguages else languages]);
    IncludeSpec(s5, "CMAKE_PROJECT_INCLUDE", env.readable);
    var first := IncludeOutcome(s5, "CMAKE_PROJECT_INCLUDE", env.readable);
    IncludeSpec(first.st, "CMAKE_PROJECT_" + name + "_INCLUDE", env.readable);
  }

  /** A repeated keyword ends the command successfully with its fatal error last and the flag set. */
  lemma ProjectRepeatedKeyword(st: MakefileState, env: Environment, args: seq<string>)
    requires args != [] && IncludeOutcome(st, "CMAKE_PROJECT_INCLUDE_BEFORE", env.readable).ok
    requires Reading(args).0.RepeatedKeyword?
    ensures var o := Project(st, env, args);
      && o.ok && o.st.fatalErrorOccurred
      && o.st.messages[|o.st.messages| - 1] == FatalError(RepeatText(Reading(args).0.keyword))
      && o.st.enabledLanguages == st.enabledLanguages
  {
  }
}
