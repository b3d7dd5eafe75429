// The FASTBuild nodes a linkable target produces: which writers
// WriteTargetFB runs for each target type, the names of the Exe, Lib and
// Dll nodes and their aliases, and how those names meet the names the
// dependents of a library compute with GetNameTargetLibrary.

module TargetNaming {
  import opened Text
  import opened GlobalEncoding
  import opened TargetNames
  import opened BffWriter
  import opened NormalTarget

  /* ---------------- what WriteTargetFB writes, by target type ---------------- */

  datatype TargetType =
    | Executable | StaticLibrary | SharedLibrary | ModuleLibrary | ObjectLibrary
    | GlobalTarget | InterfaceLibrary | Utility | UnknownLibrary | OtherType

  /** One writer WriteTargetFB calls, in the order it calls them. */
  datatype Step =
    | WriteCompile
    | SectionHeader(text: string)
    | WriteObjectLists(isObjectLibrary: bool)
    | WriteExecutable
    | WriteLibrary
    | WriteDll
    | TreatedFinish

  /** The text of the section header of a type that is not (fully) supported. */
  function HeaderText(t: TargetType, name: string): Option<string>
  {
    match t
    case ModuleLibrary => Some("NOT TOTALLY AVAILABLE : MODULE LIBRARY : " + name)
    case GlobalTarget => Some("NOT YET AVAILABLE : GLOBAL TARGET : " + name)
    case InterfaceLibrary => Some("NOT YET AVAILABLE : INTERFACE LIBRARY : " + name)
    case Utility => Some("NOT YET AVAILABLE : UTILITY : " + name)
    case UnknownLibrary => Some("NOT YET AVAILABLE : UNKNOWN LIBRARY : " + name)
    case OtherType => Some("NOT YET AVAILABLE : " + name)
    case _ => None
  }

  /**
   * WriteTargetFB: the compilers first, then by type the object lists and
   * the link node (a Dll node writes its import Lib node first), and the
   * ledger is told the target is treated last.
   */
  function TargetPlan(t: TargetType, name: string): (plan: seq<Step>)
  {
    var header := match HeaderText(t, name)
      case Some(text) => [SectionHeader(text)]
      case None => [];
    var body := match t
      case Executable => [WriteObjectLists(false), WriteExecutable]
      case StaticLibrary => [WriteObjectLists(false), WriteLibrary]
      case SharedLibrary => [WriteObjectLists(false), WriteLibrary, WriteDll]
      case ModuleLibrary => [WriteObjectLists(false), WriteLibrary, WriteDll]
      case ObjectLibrary => [WriteObjectLists(true)]
      case _ => [];
    [WriteCompile] + header + body + [TreatedFinish]
  }

  predicate IsLink(s: Step)
  {
    s.WriteExecutable? || s.WriteLibrary? || s.WriteDll?
  }

  predicate Linkable(t: TargetType)
  {
    t == Executable || t == StaticLibrary || t == SharedLibrary || t == ModuleLibrary
  }

  /**
   * Every plan declares the compilers first and finishes the target last;
   * a link node is written exactly for the four linkable types, always
   * after the object lists; object lists are written for those and for
   * object libraries only, once; a header comes exactly with the types not
   * fully supported.
   */
  lemma TargetPlanShape(t: TargetType, name: string)
    ensures var plan := TargetPlan(t, name);
      && plan[0] == WriteCompile && plan[|plan| - 1] == TreatedFinish
      && (Linkable(t) <==> exists i :: 0 <= i < |plan| && IsLink(plan[i]))
      && (forall i :: 0 <= i < |plan| && IsLink(plan[i]) ==>
            exists j :: 0 <= j < i && plan[j].WriteObjectLists?)
      && ((Linkable(t) || t == ObjectLibrary) <==>
            exists i :: 0 <= i < |plan| && plan[i] == WriteObjectLists(t == ObjectLibrary))
      && (HeaderText(t, name).Some? <==> exists i :: 0 <= i < |plan| && plan[i].SectionHeader?)
  {
    PlanLinks(t, name);
    PlanObjects(t, name);
    PlanHeader(t, name);
  }

  /** The plan of each type, spelled out. */
  lemma PlanCases(t: TargetType, name: string)
    ensures var plan := TargetPlan(t, name);
      && (t == Executable ==> plan == [WriteCompile, WriteObjectLists(false), WriteExecutable, TreatedFinish])
      && (t == StaticLibrary ==> plan == [WriteCompile, WriteObjectLists(false), WriteLibrary, TreatedFinish])
      && (t == SharedLibrary ==> plan == [WriteCompile, WriteObjectLists(false), WriteLibrary, WriteDll, TreatedFinish])
      && (t == ModuleLibrary ==>
            plan == [WriteCompile, SectionHeader(HeaderText(t, name).value), WriteObjectLists(false), WriteLibrary, WriteDll, TreatedFinish])
      && (t == ObjectLibrary ==> plan == [WriteCompile, WriteObjectLists(true), TreatedFinish])
      && (!Linkable(t) && t != ObjectLibrary ==>
            HeaderText(t, name).Some? && plan == [WriteCompile, SectionHeader(HeaderText(t, name).value), TreatedFinish])
  {
  }

  /** A link node is written exactly for the linkable types, after the object lists. */
  lemma PlanLinks(t: TargetType, name: string)
    ensures var plan := TargetPlan(t, name);
      && (Linkable(t) <==> exists i :: 0 <= i < |plan| && IsLink(plan[i]))
      && (forall i :: 0 <= i < |plan| && IsLink(plan[i]) ==>
            exists j :: 0 <= j < i && plan[j].WriteObjectLists?)
  {
    var plan := TargetPlan(t, name);
    PlanCases(t, name);
    if t == ModuleLibrary {
      assert IsLink(plan[3]) && plan[2].WriteObjectLists?;
    } else if Linkable(t) {
      assert IsLink(plan[2]) && plan[1].WriteObjectLists?;
    }
  }

  /** Object lists are written for the linkable types and object libraries. */
  lemma PlanObjects(t: TargetType, name: string)
    ensures var plan := TargetPlan(t, name);
      (Linkable(t) || t == ObjectLibrary) <==>
        exists i :: 0 <= i < |plan| && plan[i] == WriteObjectLists(t == ObjectLibrary)
  {
    var plan := TargetPlan(t, name);
    PlanCases(t, name);
    if t == ModuleLibrary {
      assert plan[2] == WriteObjectLists(false);
    } else if Linkable(t) || t == ObjectLibrary {
      assert plan[1] == WriteObjectLists(t == ObjectLibrary);
    }
  }

  /** A header comes exactly with the types not fully supported. */
  lemma PlanHeader(t: TargetType, name: string)
    ensures var plan := TargetPlan(t, name);
      HeaderText(t, name).Some? <==> exists i :: 0 <= i < |plan| && plan[i].SectionHeader?
  {
    var plan := TargetPlan(t, name);
    PlanCases(t, name);
    if HeaderText(t, name).Some? {
      assert plan[1].SectionHeader?;
    }
  }

  /* ---------------- node names ---------------- */

  /** The names WriteExecutableFB uses. */
  datatype ExeNames = ExeNames(executable: string, objectList: string, alias: string)

  /** The names WriteLibraryFB uses; the suffix is "lib", or "slib" for the import library of a Dll. */
  datatype LibNames = LibNames(library: string, objectList: string, alias: string)

  /** The names WriteDLLFB uses: its own Lib node, its Dll node, and its alias. */
  datatype DllNames = DllNames(library: string, dll: string, alias: string)

  /**
   * short_exe, short_obj and short_exe_deps, each with "_" + config inserted
   * before any "_deps" in multi config.
   */
  function ExecutableNames(short: string, isMultiConfig: bool, config: string): (r: ExeNames)
    ensures r.objectList == ObjectListBaseName(short, isMultiConfig, config)
  {
    var executable := short + "_exe" + ConfigSuffix(isMultiConfig, config);
    ExeNames(executable, short + "_obj" + ConfigSuffix(isMultiConfig, config), executable + "_deps")
  }

  /** "_lib" for a static library, "_slib" for the import library of a Dll. */
  function LibrarySuffix(isStatic: bool): string
  {
    if isStatic then "_lib" else "_slib"
  }

  /**
   * short_lib (or short_slib), short_obj and short_lib_deps, each with
   * "_" + config inserted before any "_deps" in multi config.
   */
  function LibraryNames(short: string, isStatic: bool, isMultiConfig: bool, config: string): (r: LibNames)
    ensures r.objectList == ObjectListBaseName(short, isMultiConfig, config)
  {
    var library := short + LibrarySuffix(isStatic) + ConfigSuffix(isMultiConfig, config);
    LibNames(library, short + "_obj" + ConfigSuffix(isMultiConfig, config), library + "_deps")
  }

  /** WriteDLLFB's names as the source writes them: the single-config alias ends in "-deps". */
  function DllNamesAsWritten(short: string, isMultiConfig: bool, config: string): DllNames
  {
    if !isMultiConfig then DllNames(short + "_slib", short + "_lib", short + "_lib-deps")
    else DllNames(short + "_slib_" + config, short + "_lib_" + config, short + "_lib_" + config + "_deps")
  }

  /** WriteDLLFB's names with the alias named like every other alias: node name + "_deps". */
  function DllNamesFixed(short: string, isMultiConfig: bool, config: string): (r: DllNames)
    ensures r.library == LibraryNames(short, false, isMultiConfig, config).library
  {
    var dll := short + "_lib" + ConfigSuffix(isMultiConfig, config);
    DllNames(short + "_slib" + ConfigSuffix(isMultiConfig, config), dll, dll + "_deps")
  }

  /** The import library of a target: ImpDir/short.a for GNU and Clang, ImpDir/short.lib otherwise. */
  function ImportLibrary(impDir: string, short: string, compilerId: string): string
  {
    impDir + "/" + short + (if GnuLike(compilerId) then ".a" else ".lib")
  }

  /**
   * The names of one target's nodes differ from each other, so the alias
   * never shadows the node it depends on.
   */
  lemma NodeNamesDistinct(short: string, isStatic: bool, isMultiConfig: bool, config: string)
    ensures var e := ExecutableNames(short, isMultiConfig, config);
      e.executable != e.objectList && e.executable != e.alias && e.objectList != e.alias
    ensures var l := LibraryNames(short, isStatic, isMultiConfig, config);
      l.library != l.objectList && l.library != l.alias && l.objectList != l.alias
    ensures var d := DllNamesFixed(short, isMultiConfig, config);
      d.library != d.dll && d.dll != d.alias && d.library != d.alias
  {
    var n := |short|;
    var c := ConfigSuffix(isMultiConfig, config);
    var e := ExecutableNames(short, isMultiConfig, config);
    assert e.executable == short + ("_exe" + c) && e.objectList == short + ("_obj" + c);
    assert e.executable[n + 1] == 'e' && e.objectList[n + 1] == 'o';
    var l := LibraryNames(short, isStatic, isMultiConfig, config);
    assert l.library == short + (LibrarySuffix(isStatic) + c) && l.objectList == short + ("_obj" + c);
    assert l.library[n + 1] != l.objectList[n + 1];
    var d := DllNamesFixed(short, isMultiConfig, config);
    assert d.library == short + ("_slib" + c) && d.dll == short + ("_lib" + c);
    assert d.library[n + 1] == 's' && d.dll[n + 1] == 'l';
  }

  /**
   * A static library's Lib node is named as its dependents name its
   * archive, and its alias as they reference it: node name + "_deps".
   */
  lemma StaticLibraryReferenced(impDir: string, short: string, compilerId: string,
                                isMultiConfig: bool, config: string)
    requires '.' !in short && '/' !in short && '\\' !in short && '\\' !in impDir
    ensures var l := LibraryNames(short, true, isMultiConfig, config);
      var referenced := GetNameTargetLibrary(ImportLibrary(impDir, short, compilerId), isMultiConfig, config);
      l.library == referenced && l.alias == referenced + "_deps"
  {
    var ext := if GnuLike(compilerId) then ".a" else ".lib";
    LibraryNameOfArchive(impDir, short, ext, isMultiConfig, config);
  }

  /**
   * The import library WriteDLLFB links against is the one its own
   * WriteLibraryFB call writes, and its dependents name it after the Dll
   * node: a dependent depends on the Dll node by that name.
   */
  lemma DllNodeReferenced(impDir: string, short: string, compilerId: string,
                          isMultiConfig: bool, config: string)
    requires '.' !in short && '/' !in short && '\\' !in short && '\\' !in impDir
    ensures GetNameTargetLibrary(ImportLibrary(impDir, short, compilerId), isMultiConfig, config)
         == DllNamesFixed(short, isMultiConfig, config).dll
    ensures DllNamesFixed(short, isMultiConfig, config).dll == DllNamesAsWritten(short, isMultiConfig, config).dll
  {
    var ext := if GnuLike(compilerId) then ".a" else ".lib";
    assert ImportLibrary(impDir, short, compilerId) == impDir + "/" + short + ext;
    LibraryNameOfArchive(impDir, short, ext, isMultiConfig, config);
    DllNodeAsWritten(short, isMultiConfig, config);
  }

  /** The corrected Dll node name is the one WriteDLLFB writes. */
  lemma DllNodeAsWritten(short: string, isMultiConfig: bool, config: string)
    ensures DllNamesFixed(short, isMultiConfig, config).dll == short + "_lib" + ConfigSuffix(isMultiConfig, config)
    ensures DllNamesFixed(short, isMultiConfig, config).dll == DllNamesAsWritten(short, isMultiConfig, config).dll
  {
    if isMultiConfig {
      assert short + "_lib" + ("_" + config) == short + "_lib_" + config;
    }
  }

  /**
   * As written, a single-config Dll alias is never the alias its dependents
   * reference: for "a" they list "a_lib_deps" where the Dll registers
   * "a_lib-deps".
   */
  lemma DllAliasAsWrittenMissed(impDir: string, short: string, compilerId: string, config: string)
    requires '.' !in short && '/' !in short && '\\' !in short && '\\' !in impDir
    ensures DllNamesAsWritten(short, false, config).alias
         != GetNameTargetLibrary(ImportLibrary(impDir, short, compilerId), false, config) + "_deps"
  {
    DllNodeReferenced(impDir, short, compilerId, false, config);
    assert DllNamesFixed(short, false, config).dll == short + "_lib";
    DashDiffers(short);
  }

  lemma DashDiffers(short: string)
    ensures short + "_lib-deps" != short + "_lib" + "_deps"
  {
    var n := |short|;
    assert (short + "_lib" + "_deps")[n + 4] == '_';
    assert (short + "_lib-deps")[n + 4] == '-';
  }

  /**
   * With the alias named node name + "_deps", a Dll's alias is the one its
   * dependents reference, in single and multi config alike.
   */
  lemma DllAliasReferenced(impDir: string, short: string, compilerId: string,
                           isMultiConfig: bool, config: string)
    requires '.' !in short && '/' !in short && '\\' !in short && '\\' !in impDir
    ensures var d := DllNamesFixed(short, isMultiConfig, config);
      var referenced := GetNameTargetLibrary(ImportLibrary(impDir, short, compilerId), isMultiConfig, config);
      d.dll == referenced && d.alias == referenced + "_deps"
  {
    DllNodeReferenced(impDir, short, compilerId, isMultiConfig, config);
  }

  /** In multi config the corrected names are the names the source writes. */
  lemma DllNamesMultiConfig(short: string, config: string)
    ensures DllNamesFixed(short, true, config) == DllNamesAsWritten(short, true, config)
  {
    assert short + "_lib" + ("_" + config) + "_deps" == short + "_lib_" + config + "_deps";
    assert short + "_slib" + ("_" + config) == short + "_slib_" + config;
    assert short + "_lib" + ("_" + config) == short + "_lib_" + config;
  }

  /* ---------------- aliases ---------------- */

  /** The quoted items, each followed by `suffix`, one after the other; empty items are skipped. */
  function QuotedEach(items: seq<string>, suffix: string, quotation: string): string
  {
    if items == [] then ""
    else (if items[0] == "" then "" else Quote(items[0] + suffix, quotation))
         + QuotedEach(items[1..], suffix, quotation)
  }

  /**
   * Whether an executable also gets the plain target name as alias: MSVC in
   * single config, or the default file configuration in multi config.
   */
  function TargetNameAlias(compilerId: string, isMultiConfig: bool, defaultFileConfig: string,
                           config: string): (r: bool)
    ensures isMultiConfig && r ==> config == defaultFileConfig
    ensures !isMultiConfig ==> (r <==> compilerId == "MSVC")
  {
    (compilerId == "MSVC" && !isMultiConfig) || (isMultiConfig && defaultFileConfig == config)
  }

  /**
   * The alias part of WriteExecutableFB: short_exe_deps lists the aliases
   * of the libraries linked and the executable; the plain target name
   * aliases the executable, outside "all".
   */
  method AddExecutableAliases(table: AliasTable, short: string, targetName: string, libraries: seq<string>,
                              compilerId: string, isMultiConfig: bool, defaultFileConfig: string,
                              config: string, quotation: string)
    requires table.Valid()
    modifies table
    ensures table.Valid()
    ensures var names := ExecutableNames(short, isMultiConfig, config);
      var exe := Quote(names.executable, quotation);
      var first := Recorded(old(table.aliases), Quote(names.alias, quotation),
                            Alias(config, QuotedEach(libraries, "_deps", quotation) + exe, false));
      table.aliases ==
        if TargetNameAlias(compilerId, isMultiConfig, defaultFileConfig, config)
        then Recorded(first, Quote(targetName, quotation), Alias(config, exe, true))
        else first
    ensures var names := ExecutableNames(short, isMultiConfig, config);
      var alias := Quote(names.alias, quotation);
      && alias in table.aliases
      && (alias !in old(table.aliases) ==>
            table.aliases[alias] ==
              Alias(config, QuotedEach(libraries, "_deps", quotation) + Quote(names.executable, quotation), false))
    ensures TargetNameAlias(compilerId, isMultiConfig, defaultFileConfig, config) ==>
      Quote(targetName, quotation) in table.aliases
    ensures forall a :: a in old(table.aliases) ==> a in table.aliases && table.aliases[a] == old(table.aliases)[a]
  {
    var names := ExecutableNames(short, isMultiConfig, config);
    var listDeps := ConcatQuotedAliases(libraries, quotation);
    listDeps := listDeps + Quote(names.executable, quotation);
    table.Add(Quote(names.alias, quotation), listDeps, config, false);
    if (compilerId == "MSVC" && !isMultiConfig) || (isMultiConfig && defaultFileConfig == config) {
      table.Add(Quote(targetName, quotation), Quote(names.executable, quotation), config, true);
    }
  }

  /** The loop that lists the "_deps" aliases of the non-empty library names. */
  method ConcatQuotedAliases(libraries: seq<string>, quotation: string) returns (r: string)
    ensures r == QuotedEach(libraries, "_deps", quotation)
  {
    r := "";
    var i := 0;
    while i < |libraries|
      invariant i <= |libraries|
      invariant r + QuotedEach(libraries[i..], "_deps", quotation) == QuotedEach(libraries, "_deps", quotation)
    {
      assert libraries[i..][1..] == libraries[i + 1..];
      var piece := if libraries[i] == "" then "" else Quote(libraries[i] + "_deps", quotation);
      AppendAssociates(r, piece, QuotedEach(libraries[i + 1..], "_deps", quotation));
      if libraries[i] != "" {
        r := r + Quote(libraries[i] + "_deps", quotation);
      } else {
        assert r + piece == r;
      }
      i := i + 1;
    }
  }

  /** The quoted items one after the other, none skipped. */
  function QuotedAll(items: seq<string>, quotation: string): string
  {
    if items == [] then "" else Quote(items[0], quotation) + QuotedAll(items[1..], quotation)
  }

  /**
   * The alias part of WriteLibraryFB, for static libraries only: the alias
   * lists the libraries linked, unsuffixed, and the library.
   */
  method AddStaticLibraryAlias(table: AliasTable, short: string, libraries: seq<string>,
                               isStatic: bool, isMultiConfig: bool, config: string, quotation: string)
    requires table.Valid()
    modifies table
    ensures table.Valid()
    ensures !isStatic ==> table.aliases == old(table.aliases) && table.ordered == old(table.ordered)
    ensures var names := LibraryNames(short, isStatic, isMultiConfig, config);
      isStatic ==>
        table.aliases == Recorded(old(table.aliases), Quote(names.alias, quotation),
                                  Alias(config, QuotedAll(libraries, quotation) + Quote(names.library, quotation), false))
    ensures var names := LibraryNames(short, isStatic, isMultiConfig, config);
      var alias := Quote(names.alias, quotation);
      isStatic ==>
        && alias in table.aliases
        && (alias !in old(table.aliases) ==>
              table.aliases[alias] ==
                Alias(config, QuotedAll(libraries, quotation) + Quote(names.library, quotation), false))
  {
    if isStatic {
      var names := LibraryNames(short, isStatic, isMultiConfig, config);
      var listDeps := ConcatQuoted(libraries, quotation);
      table.Add(Quote(names.alias, quotation), listDeps + Quote(names.library, quotation), config, false);
    }
  }

  /** The loop that quotes and concatenates a list of dependencies. */
  method ConcatQuoted(items: seq<string>, quotation: string) returns (r: string)
    ensures r == QuotedAll(items, quotation)
  {
    r := "";
    var i := 0;
    while i < |items|
      invariant i <= |items|
      invariant r + QuotedAll(items[i..], quotation) == QuotedAll(items, quotation)
    {
      assert items[i..][1..] == items[i + 1..];
      AppendAssociates(r, Quote(items[i], quotation), QuotedAll(items[i + 1..], quotation));
      r := r + Quote(items[i], quotation);
      i := i + 1;
    }
  }

  /**
   * The alias part of WriteDLLFB, with the alias named node name + "_deps":
   * it lists the libraries linked and the Dll node.
   */
  method AddDllAlias(table: AliasTable, short: string, libraries: seq<string>,
                     isMultiConfig: bool, config: string, quotation: string)
    requires table.Valid()
    modifies table
    ensures table.Valid()
    ensures var names := DllNamesFixed(short, isMultiConfig, config);
      table.aliases == Recorded(old(table.aliases), Quote(names.alias, quotation),
                                Alias(config, QuotedAll(libraries, quotation) + Quote(names.dll, quotation), false))
    ensures var names := DllNamesFixed(short, isMultiConfig, config);
      var alias := Quote(names.alias, quotation);
      && alias in table.aliases
      && (alias !in old(table.aliases) ==>
            table.aliases[alias] ==
              Alias(config, QuotedAll(libraries, quotation) + Quote(names.dll, quotation), false))
  {
    var names := DllNamesFixed(short, isMultiConfig, config);
    var listDeps := ConcatQuoted(libraries, quotation);
    table.Add(Quote(names.alias, quotation), listDeps + Quote(names.dll, quotation), config, false);
  }

  /* ---------------- link settings ---------------- */

  /** WriteDLLFB's linker options: " /dll" for MSVC, " -shared" for GNU and Clang. */
  function DllArguments(arguments: string, compilerId: string): (r: string)
    ensures compilerId == "MSVC" ==> r == arguments + " /dll"
    ensures GnuLike(compilerId) ==> r == arguments + " -shared"
    ensures compilerId != "MSVC" && !GnuLike(compilerId) ==> r == arguments
    ensures r[..|arguments|] == arguments
  {
    if compilerId == "MSVC" then arguments + " /dll"
    else if GnuLike(compilerId) then arguments + " -shared"
    else arguments
  }
}
