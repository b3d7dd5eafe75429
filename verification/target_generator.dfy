// The target-independent parts of cmFastbuildTargetGenerator: which
// generator a target gets, the link dependencies it registers, the paths it
// builds, the order-only phony target, the /FS flag, and the way a compile
// statement is split into a scan statement and a compile statement.

module TargetGenerator {
  import opened Text
  import opened FastbuildTypes
  import opened TargetNames
  import opened TargetNaming

  /* ---------------- generator choice ---------------- */

  datatype GeneratorKind = NormalGenerator | UtilityGenerator | NoGenerator

  /** cmFastbuildTargetGenerator::New. */
  function New(t: TargetType): (g: GeneratorKind)
    ensures g == NormalGenerator <==> Linkable(t) || t == ObjectLibrary
    ensures g == UtilityGenerator <==> t == Utility || t == InterfaceLibrary || t == GlobalTarget
  {
    match t
    case Executable | SharedLibrary | StaticLibrary | ModuleLibrary | ObjectLibrary => NormalGenerator
    case Utility | InterfaceLibrary | GlobalTarget => UtilityGenerator
    case _ => NoGenerator
  }

  /**
   * The normal generator is chosen exactly for the types whose plan writes
   * object lists; the other types a generator exists for only get a
   * placeholder header.
   */
  lemma NormalGeneratorWritesObjects(t: TargetType, name: string)
    ensures New(t) == NormalGenerator <==>
      exists i :: 0 <= i < |TargetPlan(t, name)| && TargetPlan(t, name)[i] == WriteObjectLists(t == ObjectLibrary)
    ensures New(t) == UtilityGenerator ==> HeaderText(t, name).Some?
  {
    TargetPlanShape(t, name);
  }

  /* ---------------- link dependencies ---------------- */

  /** What the link information of a target supplies, when it has one. */
  datatype LinkInformation = LinkInformation(
    depends: seq<string>,
    definitionSources: seq<string>,
    manifests: seq<string>,
    linkDepends: seq<string>)

  function MapPaths(paths: seq<string>, toPath: string -> string): (r: seq<string>)
    ensures |r| == |paths|
    ensures forall i :: 0 <= i < |paths| ==> r[i] == toPath(paths[i])
  {
    seq(|paths|, i requires 0 <= i < |paths| => toPath(paths[i]))
  }

  /**
   * ComputeLinkDeps: nothing for static and object libraries unless the type
   * is ignored, nothing without link information, otherwise the link
   * dependencies, the module definition sources, the manifests and the user
   * link dependencies, in that order, as FASTBuild paths.
   */
  function ComputeLinkDeps(t: TargetType, ignoreType: bool, cli: Option<LinkInformation>,
                           toPath: string -> string): (r: Deps)
  {
    if !ignoreType && (t == StaticLibrary || t == ObjectLibrary) then []
    else match cli
      case None => []
      case Some(info) =>
        MapPaths(info.depends, toPath) + MapPaths(info.definitionSources, toPath)
        + MapPaths(info.manifests, toPath) + MapPaths(info.linkDepends, toPath)
  }

  /**
   * Static and object libraries link against nothing unless the type is
   * ignored; every other target with link information gets one path per
   * item it lists, each converted, in order.
   */
  lemma LinkDepsShape(t: TargetType, ignoreType: bool, cli: Option<LinkInformation>,
                      toPath: string -> string)
    ensures !ignoreType && (t == StaticLibrary || t == ObjectLibrary) ==> ComputeLinkDeps(t, ignoreType, cli, toPath) == []
    ensures cli.None? ==> ComputeLinkDeps(t, ignoreType, cli, toPath) == []
    ensures (ignoreType || (t != StaticLibrary && t != ObjectLibrary)) && cli.Some? ==>
      var info := cli.value;
      var all := info.depends + info.definitionSources + info.manifests + info.linkDepends;
      var r := ComputeLinkDeps(t, ignoreType, cli, toPath);
      |r| == |all| && forall i :: 0 <= i < |all| ==> r[i] == toPath(all[i])
  {
    if (ignoreType || (t != StaticLibrary && t != ObjectLibrary)) && cli.Some? {
      var info := cli.value;
      var all := info.depends + info.definitionSources + info.manifests + info.linkDepends;
      var r := ComputeLinkDeps(t, ignoreType, cli, toPath);
      assert r == MapPaths(all, toPath);
    }
  }

  /* ---------------- paths ---------------- */

  /** GetTargetFilePath: the name alone in "" or ".", otherwise dir/name. */
  function TargetFilePath(dir: string, name: string): (r: string)
  {
    if dir == "" || dir == "." then name else dir + "/" + name
  }

  /**
   * A target file path always ends with the name; outside "" and "." its
   * directory part, as GetPath reads it, is the output directory.
   */
  lemma TargetFilePathParts(dir: string, name: string)
    requires '/' !in name
    ensures var r := TargetFilePath(dir, name);
      |r| >= |name| && r[|r| - |name|..] == name
      && (dir != "" && dir != "." ==> GetPath(r) == dir + "/")
      && (dir == "" || dir == "." ==> GetPath(r) == "")
  {
    var r := TargetFilePath(dir, name);
    if dir != "" && dir != "." {
      assert r == (dir + "/") + name;
      assert r[|dir|] == '/' && r[|dir| + 1..] == name;
      RFindLast(r, '/', |dir|);
    }
  }

  /** The ASCII lower case of a character, as cmSystemTools::LowerCase maps it. */
  function LowerChar(c: char): (r: char)
  {
    if 'A' <= c <= 'Z' then (c as int + 32) as char else c
  }

  function LowerCase(s: string): (r: string)
    ensures |r| == |s|
    ensures forall i :: 0 <= i < |s| ==> r[i] == LowerChar(s[i])
  {
    seq(|s|, i requires 0 <= i < |s| => LowerChar(s[i]))
  }

  /**
   * The extension of an already preprocessed source: lower-cased when it
   * starts with 'F', and "fpp" becomes "f".
   */
  function PreprocessedExtension(ext: string): (r: string)
  {
    var lowered := if |ext| > 0 && ext[0] == 'F' then LowerCase(ext) else ext;
    if lowered == "fpp" then "f" else lowered
  }

  /**
   * The preprocessed extension never asks for preprocessing again: it does
   * not start with 'F' and is never "fpp"; other extensions are kept.
   */
  lemma PreprocessedExtensionPlain(ext: string)
    ensures var r := PreprocessedExtension(ext);
      r != "fpp" && (|r| > 0 ==> r[0] != 'F')
      && ((|ext| == 0 || ext[0] != 'F') && ext != "fpp" ==> r == ext)
      && (ext == "FPP" || ext == "fpp" ==> r == "f")
  {
    var r := PreprocessedExtension(ext);
    if ext == "FPP" {
      assert LowerCase(ext) == "fpp";
    }
  }

  /** Lower-casing and the "fpp" rewrite never introduce a '/'. */
  lemma PreprocessedExtensionNoSlash(ext: string)
    requires '/' !in ext
    ensures '/' !in PreprocessedExtension(ext)
  {
    var lowered := LowerCase(ext);
    assert forall i :: 0 <= i < |lowered| ==> lowered[i] != '/';
  }

  /** GetPreprocessedFilePath's file name: the object name without its extension, "-pp.", the extension. */
  function PreprocessedName(objName: string, objExt: string, sourceExt: string): (r: string)
    requires |objName| >= |objExt|
  {
    objName[..|objName| - |objExt|] + "-pp." + PreprocessedExtension(sourceExt)
  }

  /** The directory every per-target path is built in: the home-relative output path, then the target directory. */
  function TargetPath(homeRelative: string, targetDir: string, configDir: string, file: string): (r: string)
  {
    (if homeRelative == "" then "" else homeRelative + "/") + targetDir + configDir + "/" + file
  }

  /**
   * The preprocessed file sits in the same directory as the object file and
   * its name keeps the object's stem.
   */
  lemma PreprocessedBesideObject(homeRelative: string, targetDir: string, configDir: string,
                                 objName: string, objExt: string, sourceExt: string)
    requires |objName| >= |objExt| && '/' !in objName && '/' !in sourceExt
    ensures var pp := PreprocessedName(objName, objExt, sourceExt);
      '/' !in pp
      && GetPath(TargetPath(homeRelative, targetDir, configDir, pp))
         == GetPath(TargetPath(homeRelative, targetDir, configDir, objName))
      && pp[..|objName| - |objExt|] == objName[..|objName| - |objExt|]
  {
    var pp := PreprocessedName(objName, objExt, sourceExt);
    var stem := objName[..|objName| - |objExt|];
    var ext := PreprocessedExtension(sourceExt);
    PreprocessedExtensionNoSlash(sourceExt);
    assert '/' !in stem by {
      forall i | 0 <= i < |stem| ensures stem[i] == objName[i] { }
    }
    assert pp == stem + ("-pp." + ext);
    var prefix := (if homeRelative == "" then "" else homeRelative + "/") + targetDir + configDir + "/";
    FileUnderPrefix(prefix, pp);
    FileUnderPrefix(prefix, objName);
    assert TargetPath(homeRelative, targetDir, configDir, pp) == prefix + pp;
    assert TargetPath(homeRelative, targetDir, configDir, objName) == prefix + objName;
  }

  /** A file without '/' under a directory ending in '/' has that directory as its path. */
  lemma FileUnderPrefix(prefix: string, file: string)
    requires |prefix| > 0 && prefix[|prefix| - 1] == '/' && '/' !in file
    ensures GetPath(prefix + file) == prefix
  {
    var r := prefix + file;
    assert r[|prefix| - 1] == '/' && r[|prefix|..] == file;
    RFindLast(r, '/', |prefix| - 1);
    assert r[..|prefix|] == prefix;
  }

  /* ---------------- the /FS flag ---------------- */

  /** WriteCompileFB's configuration flags: " /FS" is added for Debug and RelWithDebInfo only. */
  function ConfigFlags(flags: string, config: string): (r: string)
    ensures r == flags || r == flags + " /FS"
    ensures r != flags <==> config == "Debug" || config == "RelWithDebInfo"
  {
    if config == "Debug" || config == "RelWithDebInfo" then flags + " /FS" else flags
  }

  /* ---------------- the order-only phony target ---------------- */

  /**
   * The order-only dependencies of the phony target: sorted and unique, and
   * the target directory when there are none.
   */
  method OrderOnlyDeps(deps: Deps, targetDirectory: string) returns (r: Deps)
    ensures r != []
    ensures Ascending(r) && Distinct(r)
    ensures deps != [] ==> Elems(r) == Elems(deps)
    ensures deps == [] ==> r == [targetDirectory]
  {
    r := RemoveDuplicateName(deps);
    if deps == [] {
      r := [targetDirectory];
    } else {
      assert deps[0] in Elems(r);
    }
  }

  /** The phony build statement ordering a target after its dependencies. */
  method OrderOnlyPhony(targetName: string, orderDependsTarget: string, deps: Deps, targetDirectory: string)
    returns (build: Build)
    ensures build.rule == "phony" && build.comment == "Order-only phony target for " + targetName
    ensures build.outputs == [orderDependsTarget]
    ensures build.orderOnlyDeps != [] && Ascending(build.orderOnlyDeps) && Distinct(build.orderOnlyDeps)
    ensures deps != [] ==> Elems(build.orderOnlyDeps) == Elems(deps)
    ensures build.explicitDeps == [] && build.implicitDeps == [] && build.implicitOuts == []
  {
    build := NewBuild("phony");
    build := build.(comment := "Order-only phony target for " + targetName, outputs := [orderDependsTarget]);
    var ordered := OrderOnlyDeps(deps, targetDirectory);
    build := build.(orderOnlyDeps := ordered);
  }

  /* ---------------- scan and compile statements ---------------- */

  /** std::map::operator[] on a read: the bound value, or "" (and the key becomes bound to it). */
  function Get(vars: Vars, key: string): string
  {
    if key in vars then vars[key] else ""
  }

  /** The statement variables the scan statement deals in. */
  const InAbs: string := "IN_ABS"
  const Flags: string := "FLAGS"
  const Defines: string := "DEFINES"
  const Includes: string := "INCLUDES"
  const ObjFile: string := "OBJ_FILE"
  const Intermediate: string := "DYNDEP_INTERMEDIATE_FILE"
  const DepFile: string := "DEP_FILE"
  const ModuleMap: string := "DYNDEP_MODULE_MAP_FILE"

  /** They are different names. */
  lemma ScanVariablesDistinct()
    ensures InAbs != Flags && InAbs != Defines && InAbs != Includes && InAbs != ObjFile
    ensures InAbs != Intermediate && InAbs != DepFile && InAbs != ModuleMap && Flags != Defines
    ensures Flags != Includes && Flags != ObjFile && Flags != Intermediate && Flags != DepFile
    ensures Flags != ModuleMap && Defines != Includes && Defines != ObjFile && Defines != Intermediate
    ensures Defines != DepFile && Defines != ModuleMap && Includes != ObjFile && Includes != Intermediate
    ensures Includes != DepFile && Includes != ModuleMap && ObjFile != Intermediate && ObjFile != DepFile
    ensures ObjFile != ModuleMap && Intermediate != DepFile && Intermediate != ModuleMap && DepFile != ModuleMap
  {
    assert InAbs[2] != Includes[2];
    assert Defines[2] != DepFile[2];
    assert Defines[1] != Intermediate[1] && Defines[1] != ModuleMap[1];
    assert DepFile[1] != Intermediate[1] && DepFile[1] != ModuleMap[1];
    assert Intermediate[7] != ModuleMap[7];
  }

  /** The variables of the scan statement: the compile inputs, the object, the intermediate and dependency files. */
  method ScanVariables(vars: Vars, objectFileName: string, firstOutput: string, modmapFormat: string,
                       convert: string -> string)
    returns (scanVars: Vars)
    ensures InAbs in scanVars && scanVars[InAbs] == Get(vars, InAbs)
    ensures Flags in scanVars && scanVars[Flags] == Get(vars, Flags)
    ensures Defines in scanVars && scanVars[Defines] == Get(vars, Defines)
    ensures Includes in scanVars && scanVars[Includes] == Get(vars, Includes)
    ensures ObjFile in scanVars && scanVars[ObjFile] == objectFileName
    ensures Intermediate in scanVars && scanVars[Intermediate] == objectFileName + ".ddi"
    ensures DepFile in scanVars && scanVars[DepFile] == convert(firstOutput + ".d")
    ensures modmapFormat != "" <==> ModuleMap in scanVars
    ensures ModuleMap in scanVars ==> scanVars[ModuleMap] == objectFileName + ".modmap"
    ensures scanVars.Keys == {InAbs, Flags, Defines, Includes, ObjFile, Intermediate, DepFile} +
                             (if modmapFormat != "" then {ModuleMap} else {})
  {
    ScanVariablesDistinct();
    scanVars := map[InAbs := Get(vars, InAbs)];
    scanVars := scanVars[Flags := Get(vars, Flags)];
    scanVars := scanVars[Defines := Get(vars, Defines)];
    scanVars := scanVars[Includes := Get(vars, Includes)];
    scanVars := scanVars[ObjFile := objectFileName][Intermediate := objectFileName + ".ddi"];
    scanVars := scanVars[DepFile := convert(firstOutput + ".d")];
    if modmapFormat != "" {
      scanVars := scanVars[ModuleMap := objectFileName + ".modmap"];
    }
  }

  /**
   * The compile statement's variables after the scan statement is split
   * off: with compilePP, IN_ABS is emptied, the depfile dropped and the
   * defines emptied unless compilePPWithDefines; reading a missing variable
   * binds it to "".
   */
  method CompileVariables(vars: Vars, compilePP: bool, compilePPWithDefines: bool) returns (varsOut: Vars)
    ensures InAbs in varsOut && varsOut[InAbs] == (if compilePP then "" else Get(vars, InAbs))
    ensures Flags in varsOut && varsOut[Flags] == Get(vars, Flags)
    ensures Defines in varsOut
    ensures varsOut[Defines] == (if compilePP && !compilePPWithDefines then "" else Get(vars, Defines))
    ensures Includes in varsOut && varsOut[Includes] == Get(vars, Includes)
    ensures compilePP ==> DepFile !in varsOut
    ensures !compilePP ==> Get(varsOut, DepFile) == Get(vars, DepFile)
    ensures forall k :: k in vars ==> k in varsOut || (compilePP && k == DepFile)
    ensures forall k :: k in vars && k != InAbs && k != Flags && k != Defines && k != Includes && k != DepFile ==>
      k in varsOut && varsOut[k] == vars[k]
    ensures varsOut.Keys == vars.Keys + {InAbs, Flags, Defines, Includes} - (if compilePP then {DepFile} else {})
  {
    ScanVariablesDistinct();
    varsOut := vars[InAbs := if compilePP then "" else Get(vars, InAbs)];
    varsOut := varsOut[Flags := Get(vars, Flags)];
    varsOut := varsOut[Defines := if compilePP && !compilePPWithDefines then "" else Get(vars, Defines)];
    varsOut := varsOut[Includes := Get(vars, Includes)];
    if compilePP {
      varsOut := varsOut - {DepFile};
    }
  }

  /**
   * GetScanBuildStatement. With compilePP the dependencies and IN_ABS move
   * to the scan statement and the compile statement depends on the
   * preprocessed file only; otherwise they are copied. The defines move only
   * when compilePP is set without compilePPWithDefines. `convert` is the
   * shell conversion of the depfile path.
   */
  method GetScanBuildStatement(ruleName: string, ppFileName: string, compilePP: bool,
                               compilePPWithDefines: bool, objBuild: Build, vars: Vars,
                               modmapFormat: string, objectFileName: string,
                               convert: string -> string)
    returns (scan: Build, obj: Build, varsOut: Vars)
    // the dependencies move or are copied
    ensures scan.rule == ruleName
    ensures scan.explicitDeps == objBuild.explicitDeps && scan.implicitDeps == objBuild.implicitDeps
    ensures scan.orderOnlyDeps == objBuild.orderOnlyDeps
    ensures compilePP ==> obj == objBuild.(explicitDeps := [ppFileName], implicitDeps := [], orderOnlyDeps := [])
    ensures !compilePP ==> obj == objBuild
    // the outputs
    ensures ppFileName != "" ==> scan.outputs == [ppFileName] && scan.rspFile == ppFileName + ".rsp"
    ensures ppFileName == "" ==> scan.outputs == [objectFileName + ".ddi"] && scan.rspFile == "$out.rsp"
    ensures var ddi := if ppFileName != "" then [objectFileName + ".ddi"] else [];
            var modmap := if modmapFormat == "" then [] else [objectFileName + ".modmap"];
            scan.implicitOuts == ddi + modmap
    // the variables of both statements
    ensures InAbs in scan.variables && scan.variables[InAbs] == Get(vars, InAbs)
    ensures InAbs in varsOut && varsOut[InAbs] == (if compilePP then "" else Get(vars, InAbs))
    ensures Defines in scan.variables && scan.variables[Defines] == Get(vars, Defines)
    ensures Defines in varsOut
    ensures varsOut[Defines] == (if compilePP && !compilePPWithDefines then "" else Get(vars, Defines))
    ensures DepFile in scan.variables && scan.variables[DepFile] == convert(scan.outputs[0] + ".d")
    ensures compilePP ==> DepFile !in varsOut
    ensures !compilePP ==> Get(varsOut, DepFile) == Get(vars, DepFile)
    ensures Flags in scan.variables && scan.variables[Flags] == Get(vars, Flags)
    ensures Includes in scan.variables && scan.variables[Includes] == Get(vars, Includes)
    ensures ObjFile in scan.variables && scan.variables[ObjFile] == objectFileName
    ensures Intermediate in scan.variables && scan.variables[Intermediate] == objectFileName + ".ddi"
    ensures modmapFormat != "" <==> ModuleMap in scan.variables
    ensures ModuleMap in scan.variables ==> scan.variables[ModuleMap] == objectFileName + ".modmap"
    ensures scan.variables.Keys == {InAbs, Flags, Defines, Includes, ObjFile, Intermediate, DepFile} +
                                   (if modmapFormat != "" then {ModuleMap} else {})
    ensures Flags in varsOut && varsOut[Flags] == Get(vars, Flags)
    ensures Includes in varsOut && varsOut[Includes] == Get(vars, Includes)
    ensures forall k :: k in vars && k != InAbs && k != Flags && k != Defines && k != Includes && k != DepFile ==>
      k in varsOut && varsOut[k] == vars[k]
    // the scan statement has no comment
    ensures scan.comment == ""
  {
    var rspFile := if ppFileName != "" then ppFileName + ".rsp" else "$out.rsp";
    obj := objBuild;
    if compilePP {
      obj := obj.(explicitDeps := [ppFileName], implicitDeps := [], orderOnlyDeps := []);
    }
    varsOut := CompileVariables(vars, compilePP, compilePPWithDefines);
    var ddiFile := objectFileName + ".ddi";
    var outputs, implicitOuts := [ddiFile], [];
    if ppFileName != "" {
      outputs, implicitOuts := [ppFileName], [ddiFile];
    }
    var scanVars := ScanVariables(vars, objectFileName, outputs[0], modmapFormat, convert);
    if modmapFormat != "" {
      implicitOuts := implicitOuts + [objectFileName + ".modmap"];
    }
    scan := Build("", ruleName, outputs, implicitOuts, objBuild.explicitDeps, objBuild.implicitDeps,
                  objBuild.orderOnlyDeps, scanVars, rspFile);
  }
}
