// The per-target work of cmFastbuildNormalTargetGenerator that is about
// compilation: the partition of a target's sources into object lists, the
// compiler and output extension each object list uses, and the
// once-per-language table of declared compilers.

module NormalTarget {
  import opened Text
  import opened GlobalEncoding
  import opened TargetNames
  import opened BffWriter

  /* ---------------- object lists ---------------- */

  /**
   * What the generator learns about one object source: its path and
   * extension, the flags, defines and includes computed for it (opaque
   * queries of the generator), and the name of its object file.
   */
  datatype SourceFile = SourceFile(
    fullPath: string,
    extension: string,
    flags: string,
    defines: string,
    includes: string,
    objectName: string)

  /** What decides whether two neighbouring sources share an object list. */
  datatype RunKey = RunKey(options: string, outputPath: string, extension: string)

  /** One object list: its name, its sources in order, and the key they share. */
  datatype ObjectList = ObjectList(name: string, sources: seq<SourceFile>, key: RunKey)

  predicate GnuLike(compilerId: string)
  {
    compilerId == "GNU" || compilerId == "Clang"
  }

  /**
   * The combined compile options of a source: flags, the defines between two
   * spaces (with \" unescaped for GNU and Clang), and the includes.
   */
  function CompilerOptions(sf: SourceFile, compilerId: string): string
  {
    var defines := " " + sf.defines + " ";
    sf.flags + (if GnuLike(compilerId) then StripQuoteEscapes(defines) else defines) + sf.includes
  }

  function SourceKey(sf: SourceFile, compilerId: string): RunKey
  {
    RunKey(CompilerOptions(sf, compilerId), GetPath(sf.objectName), sf.extension)
  }

  /** The sources of the lists, one list after the other. */
  function Flatten(lists: seq<ObjectList>): seq<SourceFile>
  {
    if lists == [] then [] else Flatten(lists[..|lists| - 1]) + lists[|lists| - 1].sources
  }

  /** The n-th object list's name: objectList_name + "_" + n. */
  function ListName(baseName: string, n: nat): string
  {
    baseName + "_" + Decimal(n)
  }

  /** The base name of a target's object lists. */
  function ObjectListBaseName(shortName: string, isMultiConfig: bool, config: string): string
  {
    if isMultiConfig then shortName + "_obj_" + config else shortName + "_obj"
  }

  /** Distinct numbers give distinct list names. */
  lemma ListNamesDistinct(baseName: string, a: nat, b: nat)
    requires a != b
    ensures ListName(baseName, a) != ListName(baseName, b)
  {
    DecimalInjective(a, b);
    var p := |baseName| + 1;
    assert ListName(baseName, a)[p..] == Decimal(a);
    assert ListName(baseName, b)[p..] == Decimal(b);
  }

  /** The options of one source, computed as the loop does. */
  method SourceOptions(sf: SourceFile, compilerId: string) returns (options: string)
    ensures options == CompilerOptions(sf, compilerId)
  {
    var defines := " " + sf.defines + " ";
    if compilerId == "GNU" || compilerId == "Clang" {
      defines := RemoveBackslashBeforeDoubleRib(defines);
    }
    options := sf.flags + defines + sf.includes;
  }

  lemma FlattenSnoc(lists: seq<ObjectList>, l: ObjectList)
    ensures Flatten(lists + [l]) == Flatten(lists) + l.sources
  {
    assert (lists + [l])[..|lists|] == lists;
  }

  /** Every source of every list carries its list's key. */
  ghost predicate KeyedLists(lists: seq<ObjectList>, compilerId: string)
  {
    forall i, j :: 0 <= i < |lists| && 0 <= j < |lists[i].sources| ==>
      SourceKey(lists[i].sources[j], compilerId) == lists[i].key
  }

  /** Neighbouring lists have different keys. */
  ghost predicate KeysChange(lists: seq<ObjectList>)
  {
    forall i :: 0 <= i < |lists| - 1 ==> lists[i].key != lists[i + 1].key
  }

  /**
   * `lists` partitions `sources` into maximal runs of equal key, in order,
   * named with the numbers from 1: at least one list, only the last may be
   * empty and it is empty only when there are no sources, every source
   * carries its list's key, and neighbouring lists differ in key.
   */
  ghost predicate Partition(sources: seq<SourceFile>, compilerId: string, baseName: string,
                            lists: seq<ObjectList>)
  {
    && |lists| >= 1
    && (forall i :: 0 <= i < |lists| ==> lists[i].name == ListName(baseName, i + 1))
    && Flatten(lists) == sources
    && (forall i :: 0 <= i < |lists| - 1 ==> lists[i].sources != [])
    && (lists[|lists| - 1].sources == [] <==> sources == [])
    && KeyedLists(lists, compilerId)
    && KeysChange(lists)
  }

  /**
   * The loop of WriteObjectListsFB: the sources split into maximal runs of
   * equal key, in order, numbered from 1; the last list is written even
   * when it is empty, which happens only when there are no sources.
   */
  method ComputeObjectLists(sources: seq<SourceFile>, compilerId: string, baseName: string)
    returns (lists: seq<ObjectList>)
    ensures Partition(sources, compilerId, baseName, lists)
  {
    var key := FirstKey(sources, compilerId);
    var done: seq<ObjectList> := [];
    ghost var closed: seq<SourceFile> := [];
    var current: seq<SourceFile> := [];
    var nb := 1;
    var k := 0;
    BuildingStart(sources, compilerId, baseName, key);
    while k < |sources|
      invariant nb == |done| + 1
      invariant Building(sources, compilerId, baseName, k, done, closed, current, key)
    {
      done, closed, current, key, nb := NextSource(sources, compilerId, baseName, k, done, closed, current, key, nb);
      k := k + 1;
    }
    lists := done + [ObjectList(ListName(baseName, nb), current, key)];
    BuildingDone(sources, compilerId, baseName, done, closed, current, key, lists);
  }

  /** The key the loop starts with: the first source's, computed from its object directory. */
  method FirstKey(sources: seq<SourceFile>, compilerId: string) returns (key: RunKey)
    ensures sources != [] ==> key == SourceKey(sources[0], compilerId)
  {
    key := RunKey("", "", "");
    if sources != [] {
      var options := SourceOptions(sources[0], compilerId);
      GetPathIdempotent(sources[0].objectName);
      key := RunKey(options, GetPath(GetPath(sources[0].objectName)), sources[0].extension);
    }
  }

  /** One iteration of the loop: the next source joins the current list or starts a new one. */
  method NextSource(sources: seq<SourceFile>, compilerId: string, baseName: string, k: nat,
                    done: seq<ObjectList>, ghost closed: seq<SourceFile>,
                    current: seq<SourceFile>, key: RunKey, nb: nat)
    returns (done': seq<ObjectList>, ghost closed': seq<SourceFile>,
             current': seq<SourceFile>, key': RunKey, nb': nat)
    requires Building(sources, compilerId, baseName, k, done, closed, current, key)
    requires k < |sources| && nb == |done| + 1
    ensures Building(sources, compilerId, baseName, k + 1, done', closed', current', key')
    ensures nb' == |done'| + 1
  {
    var sf := sources[k];
    var options := SourceOptions(sf, compilerId);
    key' := RunKey(options, GetPath(sf.objectName), sf.extension);
    assert key' == SourceKey(sf, compilerId);
    if key' != key {
      BuildingSplit(sources, compilerId, baseName, k, done, closed, current, key);
      done', closed', current', nb' := done + [ObjectList(ListName(baseName, nb), current, key)], closed + current, [sf], nb + 1;
    } else {
      BuildingExtend(sources, compilerId, baseName, k, done, closed, current, key);
      done', closed', current', nb' := done, closed, current + [sf], nb;
    }
  }

  /** The loop state of ComputeObjectLists after the first k sources. */
  ghost predicate Building(sources: seq<SourceFile>, compilerId: string, baseName: string, k: nat,
                           done: seq<ObjectList>, closed: seq<SourceFile>,
                           current: seq<SourceFile>, key: RunKey)
  {
    && k <= |sources|
    && (forall i :: 0 <= i < |done| ==> done[i].name == ListName(baseName, i + 1))
    && closed == Flatten(done) && closed + current == sources[..k]
    && (forall i :: 0 <= i < |done| ==> done[i].sources != [])
    && (k > 0 ==> current != [])
    && (k == 0 && sources != [] ==> key == SourceKey(sources[0], compilerId))
    && KeyedLists(done, compilerId) && KeysChange(done)
    && (forall j :: 0 <= j < |current| ==> SourceKey(current[j], compilerId) == key)
    && (done != [] ==> done[|done| - 1].key != key)
  }

  /** A source with a new key closes the current list and starts the next one. */
  lemma BuildingSplit(sources: seq<SourceFile>, compilerId: string, baseName: string, k: nat,
                      done: seq<ObjectList>, closed: seq<SourceFile>,
                      current: seq<SourceFile>, key: RunKey)
    requires Building(sources, compilerId, baseName, k, done, closed, current, key)
    requires k < |sources| && SourceKey(sources[k], compilerId) != key
    ensures Building(sources, compilerId, baseName, k + 1,
                     done + [ObjectList(ListName(baseName, |done| + 1), current, key)],
                     closed + current, [sources[k]], SourceKey(sources[k], compilerId))
  {
    TakeSnoc(sources, k);
    var list := ObjectList(ListName(baseName, |done| + 1), current, key);
    var done' := done + [list];
    var key' := SourceKey(sources[k], compilerId);
    assert k > 0 && current != [];
    CloseRun(done, list, compilerId);
    FlattenSnoc(done, list);
    assert (closed + current) + [sources[k]] == sources[..k + 1];
    NamedListsSnoc(done, list, baseName);
    assert done'[|done'| - 1].key != key';
  }

  /** A non-empty list named after its position keeps the lists numbered and non-empty. */
  lemma NamedListsSnoc(done: seq<ObjectList>, list: ObjectList, baseName: string)
    requires forall i :: 0 <= i < |done| ==> done[i].name == ListName(baseName, i + 1) && done[i].sources != []
    requires list.name == ListName(baseName, |done| + 1) && list.sources != []
    ensures var done' := done + [list];
      forall i :: 0 <= i < |done'| ==> done'[i].name == ListName(baseName, i + 1) && done'[i].sources != []
  {
    var done' := done + [list];
    forall i | 0 <= i < |done'|
      ensures done'[i].name == ListName(baseName, i + 1) && done'[i].sources != []
    {
      if i < |done| { assert done'[i] == done[i]; } else { assert done'[i] == list; }
    }
  }

  /** A source with the current key joins the current list. */
  lemma BuildingExtend(sources: seq<SourceFile>, compilerId: string, baseName: string, k: nat,
                       done: seq<ObjectList>, closed: seq<SourceFile>,
                       current: seq<SourceFile>, key: RunKey)
    requires Building(sources, compilerId, baseName, k, done, closed, current, key)
    requires k < |sources| && SourceKey(sources[k], compilerId) == key
    ensures Building(sources, compilerId, baseName, k + 1, done, closed, current + [sources[k]], key)
  {
    TakeSnoc(sources, k);
    assert closed + (current + [sources[k]]) == (closed + current) + [sources[k]];
  }

  /** Before the loop nothing is built, and the key is the first source's. */
  lemma BuildingStart(sources: seq<SourceFile>, compilerId: string, baseName: string, key: RunKey)
    requires sources != [] ==> key == SourceKey(sources[0], compilerId)
    ensures Building(sources, compilerId, baseName, 0, [], [], [], key)
  {
  }

  /** After the loop, closing the current list gives the result. */
  lemma BuildingDone(sources: seq<SourceFile>, compilerId: string, baseName: string,
                     done: seq<ObjectList>, closed: seq<SourceFile>,
                     current: seq<SourceFile>, key: RunKey, lists: seq<ObjectList>)
    requires Building(sources, compilerId, baseName, |sources|, done, closed, current, key)
    requires lists == done + [ObjectList(ListName(baseName, |done| + 1), current, key)]
    ensures Partition(sources, compilerId, baseName, lists)
  {
    TakeAll(sources);
    CloseRun(done, lists[|done|], compilerId);
    FlattenSnoc(done, lists[|done|]);
  }

  /** Appending a list keyed like its sources, with a new key, keeps the lists keyed. */
  lemma CloseRun(done: seq<ObjectList>, list: ObjectList, compilerId: string)
    requires KeyedLists(done, compilerId) && KeysChange(done)
    requires forall j :: 0 <= j < |list.sources| ==> SourceKey(list.sources[j], compilerId) == list.key
    requires done != [] ==> done[|done| - 1].key != list.key
    ensures KeyedLists(done + [list], compilerId) && KeysChange(done + [list])
  {
  }

  /** The keys of the sources, in order. */
  function KeysOf(s: seq<SourceFile>, compilerId: string): (r: seq<RunKey>)
    ensures |r| == |s|
    ensures forall j :: 0 <= j < |s| ==> r[j] == SourceKey(s[j], compilerId)
  {
    seq(|s|, j requires 0 <= j < |s| => SourceKey(s[j], compilerId))
  }

  /** The number of places where a key differs from its predecessor. */
  function Changes<K(==)>(keys: seq<K>): nat
    decreases |keys|
  {
    if |keys| <= 1 then 0
    else Changes(keys[..|keys| - 1]) + (if keys[|keys| - 2] != keys[|keys| - 1] then 1 else 0)
  }

  lemma {:induction false} ChangesConcat<K>(a: seq<K>, b: seq<K>)
    requires a != [] && b != []
    ensures Changes(a + b) == Changes(a) + Changes(b) + (if a[|a| - 1] != b[0] then 1 else 0)
    decreases |b|
  {
    if |b| == 1 {
      assert (a + b)[..|a + b| - 1] == a;
    } else {
      var b' := b[..|b| - 1];
      ChangesConcat(a, b');
      assert (a + b)[..|a + b| - 1] == a + b';
    }
  }

  lemma {:induction false} ChangesUniform<K>(keys: seq<K>, key: K)
    requires forall j :: 0 <= j < |keys| ==> keys[j] == key
    ensures Changes(keys) == 0
    decreases |keys|
  {
    if |keys| > 1 {
      ChangesUniform(keys[..|keys| - 1], key);
    }
  }

  /** The last source of the lists is the last source of the last list. */
  lemma FlattenLast(lists: seq<ObjectList>)
    requires lists != [] && lists[|lists| - 1].sources != []
    ensures Flatten(lists) != []
    ensures Flatten(lists)[|Flatten(lists)| - 1]
         == lists[|lists| - 1].sources[|lists[|lists| - 1].sources| - 1]
  {
  }

  lemma KeysOfConcat(a: seq<SourceFile>, b: seq<SourceFile>, compilerId: string)
    ensures KeysOf(a + b, compilerId) == KeysOf(a, compilerId) + KeysOf(b, compilerId)
  {
  }

  /** Without its last list, a partition partitions the sources before that list. */
  lemma PartitionInit(sources: seq<SourceFile>, compilerId: string, baseName: string,
                      lists: seq<ObjectList>)
    requires Partition(sources, compilerId, baseName, lists) && |lists| > 1
    ensures var init := lists[..|lists| - 1];
      var last := lists[|lists| - 1];
      && Partition(Flatten(init), compilerId, baseName, init)
      && sources == Flatten(init) + last.sources
      && Flatten(init) != [] && last.sources != []
      && SourceKey(Flatten(init)[|Flatten(init)| - 1], compilerId) != last.key
  {
    var init := lists[..|lists| - 1];
    FlattenLast(init);
  }

  /**
   * Independently of how the loop builds them, the number of object lists
   * is one more than the number of key changes along the sources (one
   * empty list when there are no sources).
   */
  lemma {:induction false} PartitionCount(sources: seq<SourceFile>, compilerId: string, baseName: string,
                                          lists: seq<ObjectList>)
    requires Partition(sources, compilerId, baseName, lists)
    ensures |lists| == 1 + Changes(KeysOf(sources, compilerId))
    decreases |lists|
  {
    var last := lists[|lists| - 1];
    var lastKeys := KeysOf(last.sources, compilerId);
    ChangesUniform(lastKeys, last.key);
    if |lists| > 1 {
      var init := lists[..|lists| - 1];
      PartitionInit(sources, compilerId, baseName, lists);
      PartitionCount(Flatten(init), compilerId, baseName, init);
      KeysOfConcat(Flatten(init), last.sources, compilerId);
      ChangesConcat(KeysOf(Flatten(init), compilerId), lastKeys);
    } else {
      assert lists[..0] == [];
      assert sources == last.sources;
    }
  }

  /** A quoted input file as written in CompilerInputFiles. */
  function InputFiles(list: ObjectList): (r: seq<string>)
    ensures |r| == |list.sources|
    ensures forall j :: 0 <= j < |r| ==> r[j] == "\"" + list.sources[j].fullPath + "\""
  {
    seq(|list.sources|, j requires 0 <= j < |list.sources| => "\"" + list.sources[j].fullPath + "\"")
  }

  /**
   * WriteObjectListsFB: computes the lists and, for an object library,
   * registers the alias objectList_name + "_deps".
   */
  method WriteObjectListsFB(sources: seq<SourceFile>, compilerId: string, shortName: string,
                            isMultiConfig: bool, config: string, isObjectLibrary: bool,
                            quotation: string, table: AliasTable)
    returns (lists: seq<ObjectList>)
    requires table.Valid()
    modifies table
    ensures Partition(sources, compilerId, ObjectListBaseName(shortName, isMultiConfig, config), lists)
    ensures table.Valid()
    ensures !isObjectLibrary ==> table.aliases == old(table.aliases) && table.ordered == old(table.ordered)
    ensures isObjectLibrary ==>
      Quote(ObjectListBaseName(shortName, isMultiConfig, config) + "_deps", quotation) in table.aliases
    ensures var baseName := ObjectListBaseName(shortName, isMultiConfig, config);
      isObjectLibrary ==>
        table.aliases == Recorded(old(table.aliases), Quote(baseName + "_deps", quotation),
                                  Alias(config, Quote(baseName, quotation), false))
  {
    var baseName := if !isMultiConfig then shortName + "_obj" else shortName + "_obj_" + config;
    lists := ComputeObjectLists(sources, compilerId, baseName);
    if isObjectLibrary {
      table.Add(Quote(baseName + "_deps", quotation), Quote(baseName, quotation), config, false);
    }
  }

  /* ---------------- compiler and output extension of an object list ---------------- */

  /** Which option generator supplies the CompilerOptions of an overriding compiler. */
  datatype OptionSource = NoOptions | RcOptions | MsvcOptions | GccClangOptions(compilerId: string)

  /** What WriteObjectListFB decides for one list. */
  datatype CompileChoice = CompileChoice(
    lang: string,
    compiler: string,
    compilerOptions: OptionSource,
    usingInfo: string,
    outputExtension: string)

  /** The compiler options for a C or C++ override, by compiler id. */
  function OverrideOptions(compilerId: string): OptionSource
  {
    if compilerId == "MSVC" then MsvcOptions
    else if GnuLike(compilerId) then GccClangOptions(compilerId)
    else NoOptions
  }

  /**
   * WriteObjectListFB's choice: the object extension, the language, and
   * either a compiler override (rc, c or cpp sources in a target of another
   * language) or the target's own compiler information.
   */
  function ObjectCompile(language: string, sourceExtension: string, compilerId: string,
                         config: string, targetName: string): (r: CompileChoice)
  {
    var baseExtension := if GnuLike(compilerId) then ".o" else ".obj";
    var isResource := language == "RC" || sourceExtension == "rc";
    var extension := if isResource then ".res" else baseExtension;
    var lang := if isResource then "RC" else language;
    var choice :=
      if language != "RC" && sourceExtension == "rc" then
        CompileChoice("RC", "RC", RcOptions, "", extension)
      else if language != "C" && sourceExtension == "c" then
        CompileChoice("C", "C", OverrideOptions(compilerId), "", extension)
      else if language != "CXX" && sourceExtension == "cpp" then
        CompileChoice("CXX", "CXX", OverrideOptions(compilerId), "", extension)
      else
        CompileChoice(lang, "", NoOptions,
                      ".Compiler" + lang + config + MapChar(targetName, '-', "__"), extension);
    var extensionLang := GetOutputExtension(choice.lang);
    if extensionLang == "" then choice
    else choice.(outputExtension := "." + extensionLang + choice.outputExtension)
  }

  /**
   * The object extension: ".res" for resources, otherwise ".o" for GNU and
   * Clang and ".obj" for the rest, prefixed by the language's source
   * extension for C, C++ and RC.
   */
  lemma ObjectExtension(language: string, sourceExtension: string, compilerId: string,
                        config: string, targetName: string)
    ensures var r := ObjectCompile(language, sourceExtension, compilerId, config, targetName);
      var kind := if language == "RC" || sourceExtension == "rc" then ".res"
                  else if GnuLike(compilerId) then ".o" else ".obj";
      r.outputExtension == (if GetOutputExtension(r.lang) == "" then kind
                            else "." + GetOutputExtension(r.lang) + kind)
    ensures sourceExtension == "rc" ==>
      ObjectCompile(language, sourceExtension, compilerId, config, targetName).outputExtension == ".rc.res"
  {
  }

  /**
   * A compiler is overridden exactly for rc, c and cpp sources in a target
   * of another language; otherwise the list uses the target's compiler
   * information, named after the language, config and target.
   */
  lemma ObjectCompilerOverride(language: string, sourceExtension: string, compilerId: string,
                               config: string, targetName: string)
    ensures var r := ObjectCompile(language, sourceExtension, compilerId, config, targetName);
      (r.compiler != "" <==>
        (language != "RC" && sourceExtension == "rc") ||
        (language != "C" && sourceExtension == "c") ||
        (language != "CXX" && sourceExtension == "cpp"))
      && (r.compiler != "" ==> r.compiler == r.lang && r.usingInfo == "")
      && (r.compiler == "" ==> r.usingInfo == ".Compiler" + r.lang + config + MapChar(targetName, '-', "__")
                               && r.compilerOptions == NoOptions)
  {
  }

  /* ---------------- the compiler table ---------------- */

  /** The languages WriteCompileFB always tries to declare, in order. */
  const UsefulLanguages: seq<string> := ["C", "CXX", "RC"]

  /**
   * The languages a WriteCompileFB call declares, in order: each of C, CXX
   * and RC not yet known and with a compiler, then the linker language if
   * still unknown (even without a compiler).
   */
  function NewCompilers(known: set<string>, lang: string, compilers: map<string, string>): (r: seq<string>)
  {
    var useful := DeclareAll(known, UsefulLanguages, compilers);
    if lang in known || lang in useful then useful else useful + [lang]
  }

  /** The languages of `langs` declared one after the other, `known` growing as they are. */
  function DeclareAll(known: set<string>, langs: seq<string>, compilers: map<string, string>): (r: seq<string>)
    decreases |langs|
  {
    if langs == [] then []
    else if langs[0] !in known && Definition(compilers, langs[0]) != "" then
      [langs[0]] + DeclareAll(known + {langs[0]}, langs[1..], compilers)
    else DeclareAll(known, langs[1..], compilers)
  }

  /** GetSafeDefinition of CMAKE_<lang>_COMPILER: "" when undefined. */
  function Definition(compilers: map<string, string>, lang: string): string
  {
    if lang in compilers then compilers[lang] else ""
  }

  /** Declared are exactly the listed languages not known and with a compiler, each once. */
  lemma {:induction false} DeclareAllFacts(known: set<string>, langs: seq<string>, compilers: map<string, string>)
    ensures Distinct(DeclareAll(known, langs, compilers))
    ensures forall x :: x in DeclareAll(known, langs, compilers) <==>
              x in langs && x !in known && Definition(compilers, x) != ""
    decreases |langs|
  {
    if langs != [] {
      var l := langs[0];
      assert forall x :: x in langs <==> x == l || x in langs[1..];
      if l !in known && Definition(compilers, l) != "" {
        DeclareAllFacts(known + {l}, langs[1..], compilers);
        DistinctCons(l, DeclareAll(known + {l}, langs[1..], compilers));
      } else {
        DeclareAllFacts(known, langs[1..], compilers);
      }
    }
  }

  /** DeclareAll from index i: the language there, declared or skipped, then the rest. */
  lemma DeclareAllStep(known: set<string>, langs: seq<string>, i: nat, compilers: map<string, string>)
    requires i < |langs|
    ensures DeclareAll(known, langs[i..], compilers) ==
      if langs[i] !in known && Definition(compilers, langs[i]) != ""
      then [langs[i]] + DeclareAll(known + {langs[i]}, langs[i + 1..], compilers)
      else DeclareAll(known, langs[i + 1..], compilers)
  {
    assert langs[i..][1..] == langs[i + 1..];
  }

  /**
   * Each language is declared at most once, never again once known, the
   * useful languages with a compiler are declared, and the linker language
   * is known after the call.
   */
  lemma NewCompilersOnce(known: set<string>, lang: string, compilers: map<string, string>)
    ensures Distinct(NewCompilers(known, lang, compilers))
    ensures forall l :: l in NewCompilers(known, lang, compilers) ==> l !in known
    ensures lang in known || lang in NewCompilers(known, lang, compilers)
    ensures forall l :: l in UsefulLanguages ==>
              (l in NewCompilers(known, lang, compilers) <==>
                 l !in known && (Definition(compilers, l) != "" || l == lang))
  {
    var useful := DeclareAll(known, UsefulLanguages, compilers);
    DeclareAllFacts(known, UsefulLanguages, compilers);
    if !(lang in known || lang in useful) {
      DistinctSnoc(useful, lang);
    }
  }

  /**
   * MapCompilersFB: the languages whose compiler section has been written,
   * with `declared` the order of writing.
   */
  class CompilerTable {
    var compilers: set<string>
    var declared: seq<string>

    predicate Valid()
      reads this
    {
      compilers == Elems(declared) && Distinct(declared)
    }

    constructor ()
      ensures Valid() && compilers == {} && declared == []
    {
      compilers := {};
      declared := [];
    }

    /** Writes the compiler section of a language not yet declared and records it. */
    method Add(lang: string)
      requires Valid() && lang !in compilers
      modifies this
      ensures Valid()
      ensures declared == old(declared) + [lang] && compilers == old(compilers) + {lang}
    {
      DistinctSnoc(declared, lang);
      declared := declared + [lang];
      compilers := compilers + {lang};
    }

    /** Declares langs[i] when it is not yet known and has a compiler. */
    method DeclareIfUseful(langs: seq<string>, i: nat, definitions: map<string, string>)
      requires Valid() && i < |langs|
      modifies this
      ensures Valid()
      ensures declared + DeclareAll(compilers, langs[i + 1..], definitions) ==
        old(declared) + DeclareAll(old(compilers), langs[i..], definitions)
    {
      var l := langs[i];
      DeclareAllStep(compilers, langs, i, definitions);
      if l !in compilers && Definition(definitions, l) != "" {
        Add(l);
        assert declared + DeclareAll(compilers, langs[i + 1..], definitions) ==
          old(declared) + ([l] + DeclareAll(compilers, langs[i + 1..], definitions));
      }
    }

    /** The compiler part of WriteCompileFB. */
    method Declare(lang: string, definitions: map<string, string>)
      requires Valid()
      modifies this
      ensures Valid()
      ensures declared == old(declared) + NewCompilers(old(compilers), lang, definitions)
      ensures compilers == old(compilers) + Elems(NewCompilers(old(compilers), lang, definitions))
    {
      ghost var useful := DeclareAll(compilers, UsefulLanguages, definitions);
      var i := 0;
      while i < |UsefulLanguages|
        invariant i <= |UsefulLanguages| && Valid()
        invariant declared + DeclareAll(compilers, UsefulLanguages[i..], definitions) == old(declared) + useful
      {
        DeclareIfUseful(UsefulLanguages, i, definitions);
        i := i + 1;
      }
      assert declared == old(declared) + useful;
      if lang !in compilers {
        Add(lang);
      }
      ElemsConcat(old(declared), NewCompilers(old(compilers), lang, definitions));
    }
  }
}
