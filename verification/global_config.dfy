// The multi-config generator's configuration selection
// (CMAKE_CONFIGURATION_TYPES, CMAKE_DEFAULT_BUILD_TYPE, CMAKE_CROSS_CONFIGS,
// CMAKE_DEFAULT_CONFIGS), the order on target-closure keys and the names of
// the per-configuration build files.

module GlobalConfig {
  import opened Text

  /* ---------------- ListSubsetWithAll ---------------- */

  /**
   * What ListSubsetWithAll returns: `defaults` for the single item "all";
   * the set of the items when every item lies in `all` and none is "all";
   * nothing otherwise.
   */
  function SubsetWithAll(all: set<string>, defaults: set<string>, items: seq<string>): Option<set<string>>
  {
    if items == ["all"] then Some(defaults)
    else if forall i :: 0 <= i < |items| ==> items[i] != "all" && items[i] in all then Some(Elems(items))
    else None
  }

  /** The loop with its early returns computes SubsetWithAll. */
  method ListSubsetWithAll(all: set<string>, defaults: set<string>, items: seq<string>)
    returns (r: Option<set<string>>)
    ensures r == SubsetWithAll(all, defaults, items)
  {
    var result: set<string> := {};
    var i := 0;
    while i < |items|
      invariant i <= |items|
      invariant if i == 1 && items == ["all"] then result == defaults
                else (forall k :: 0 <= k < i ==> items[k] != "all" && items[k] in all) && result == Elems(items[..i])
    {
      var item := items[i];
      TakeSnoc(items, i);
      if item == "all" {
        if |items| == 1 {
          assert items == [item];
          result := defaults;
        } else {
          assert items != ["all"];
          return None;
        }
      } else if item in all {
        result := result + {item};
      } else {
        assert items != ["all"];
        return None;
      }
      i := i + 1;
    }
    TakeAll(items);
    return Some(result);
  }

  /** Every accepted item is in `all`, "all" alone gives the defaults, no items give the empty set. */
  lemma SubsetWithAllCases(all: set<string>, defaults: set<string>, items: seq<string>)
    ensures items == [] ==> SubsetWithAll(all, defaults, items) == Some({})
    ensures SubsetWithAll(all, defaults, ["all"]) == Some(defaults)
    ensures (exists i :: 0 <= i < |items| && items[i] != "all" && items[i] !in all) ==>
              SubsetWithAll(all, defaults, items) == None
    ensures "all" in items && |items| > 1 ==> SubsetWithAll(all, defaults, items) == None
  {
    if items == [] {
      assert Elems(items) == {} by {
        forall x ensures x !in Elems(items) { }
      }
    }
  }

  /** With `defaults` inside `all`, an accepted result always lies inside `all`. */
  lemma SubsetWithAllWithin(all: set<string>, defaults: set<string>, items: seq<string>)
    requires defaults <= all
    ensures SubsetWithAll(all, defaults, items).Some? ==> SubsetWithAll(all, defaults, items).value <= all
  {
  }

  /* ---------------- InspectConfigTypeVariables ---------------- */

  /** The four cache variables the selection reads, as their raw list strings. */
  datatype ConfigVariables = ConfigVariables(
    configurationTypes: string,
    defaultBuildType: string,
    crossConfigs: string,
    defaultConfigs: string)

  /** The fields InspectConfigTypeVariables sets on success. */
  datatype ConfigSelection = ConfigSelection(
    configs: set<string>,
    defaultFileConfig: string,
    crossConfigs: set<string>,
    defaultConfigs: set<string>)

  /** The expanded configuration types, or the single empty configuration. */
  function ConfigurationList(types: string): (r: seq<string>)
    ensures |r| >= 1
    ensures r == [""] || forall i :: 0 <= i < |r| ==> r[i] != ""
  {
    var expanded := ExpandList(types);
    if expanded == [] then [""] else expanded
  }

  /** GetCrossConfigs: the cross configurations plus the file configuration. */
  function GetCrossConfigs(cross: set<string>, fileConfig: string): (r: set<string>)
    ensures cross <= r && fileConfig in r
    ensures forall c :: c in r ==> c in cross || c == fileConfig
  {
    cross + {fileConfig}
  }

  const DefaultConfigsWithoutBase: string :=
    "CMAKE_DEFAULT_CONFIGS cannot be used without CMAKE_DEFAULT_BUILD_TYPE or CMAKE_CROSS_CONFIGS"

  /** The checks of InspectConfigTypeVariables, in order, with their fatal messages. */
  function InspectConfigTypeVariables(v: ConfigVariables): (r: Result<ConfigSelection>)
  {
    var configsVec := ConfigurationList(v.configurationTypes);
    var configs := Elems(configsVec);
    var fileConfig := if v.defaultBuildType == "" then configsVec[0] else v.defaultBuildType;
    if fileConfig !in configs then
      Err("The configuration specified by CMAKE_DEFAULT_BUILD_TYPE (" + fileConfig
          + ") is not present in CMAKE_CONFIGURATION_TYPES")
    else match SubsetWithAll(configs, configs, ExpandList(v.crossConfigs))
      case None => Err("CMAKE_CROSS_CONFIGS is not a subset of CMAKE_CONFIGURATION_TYPES")
      case Some(cross) =>
        var defaultsString := if v.defaultConfigs == "" then fileConfig else v.defaultConfigs;
        if defaultsString != "" && defaultsString != fileConfig && (fileConfig == "" || cross == {}) then
          Err(DefaultConfigsWithoutBase)
        else if fileConfig == "" then
          Ok(ConfigSelection(configs, fileConfig, cross, {}))
        else match SubsetWithAll(GetCrossConfigs(cross, fileConfig), cross, ExpandList(defaultsString))
          case None => Err("CMAKE_DEFAULT_CONFIGS is not a subset of CMAKE_CROSS_CONFIGS")
          case Some(defaults) => Ok(ConfigSelection(configs, fileConfig, cross, defaults))
  }

  /**
   * A successful selection is consistent: the default build type is one of
   * the configurations, the cross configurations are a subset of them, and
   * the default configurations lie within the cross configurations plus the
   * default build type.
   */
  lemma SelectionConsistent(v: ConfigVariables)
    ensures InspectConfigTypeVariables(v).Ok? ==>
      var s := InspectConfigTypeVariables(v).value;
      s.configs != {} && s.defaultFileConfig in s.configs && s.crossConfigs <= s.configs
      && s.defaultConfigs <= s.crossConfigs + {s.defaultFileConfig}
  {
    var r := InspectConfigTypeVariables(v);
    if r.Ok? {
      var configsVec := ConfigurationList(v.configurationTypes);
      assert configsVec[0] in Elems(configsVec);
      var configs := Elems(configsVec);
      var fileConfig := if v.defaultBuildType == "" then configsVec[0] else v.defaultBuildType;
      var crossFound := SubsetWithAll(configs, configs, ExpandList(v.crossConfigs));
      assert fileConfig in configs && crossFound.Some?;
      SubsetWithAllWithin(configs, configs, ExpandList(v.crossConfigs));
      var cross := crossFound.value;
      if fileConfig == "" {
        assert r.value == ConfigSelection(configs, fileConfig, cross, {});
      } else {
        var defaultsString := if v.defaultConfigs == "" then fileConfig else v.defaultConfigs;
        var defaultsFound := SubsetWithAll(GetCrossConfigs(cross, fileConfig), cross, ExpandList(defaultsString));
        assert defaultsFound.Some? && r.value == ConfigSelection(configs, fileConfig, cross, defaultsFound.value);
        SubsetWithAllWithin(GetCrossConfigs(cross, fileConfig), cross, ExpandList(defaultsString));
      }
    }
  }

  /** A default build type that names no configuration is rejected with its own message. */
  lemma UnknownDefaultBuildType(v: ConfigVariables)
    requires v.defaultBuildType != "" && v.defaultBuildType !in ConfigurationList(v.configurationTypes)
    ensures InspectConfigTypeVariables(v) ==
      Err("The configuration specified by CMAKE_DEFAULT_BUILD_TYPE (" + v.defaultBuildType
          + ") is not present in CMAKE_CONFIGURATION_TYPES")
  {
  }

  /** Default configurations other than the build type need a build type and cross configurations. */
  lemma DefaultConfigsNeedCross(v: ConfigVariables)
    requires v.defaultBuildType in ConfigurationList(v.configurationTypes)
    requires v.crossConfigs == ""
    requires v.defaultConfigs != "" && v.defaultConfigs != v.defaultBuildType
    ensures InspectConfigTypeVariables(v) == Err(DefaultConfigsWithoutBase)
  {
    ExpandEmpty();
    SubsetWithAllCases(Elems(ConfigurationList(v.configurationTypes)),
                       Elems(ConfigurationList(v.configurationTypes)), []);
  }

  lemma ExpandEmpty()
    ensures ExpandList("") == []
  {
    assert Split("", ';') == [""];
  }

  lemma ExpandSingle(s: string)
    requires s != "" && ';' !in s
    ensures ExpandList(s) == [s]
  {
    assert Find(s, ';') == None;
    assert Split(s, ';') == [s];
    assert [s][1..] == [];
    assert NonEmpty([]) == [];
    assert NonEmpty([s]) == [s] + NonEmpty([]);
  }

  /**
   * With only CMAKE_CONFIGURATION_TYPES set, the first configuration is the
   * default, no cross configurations are enabled and the defaults are the
   * default build type alone.
   */
  lemma PlainSelection(v: ConfigVariables)
    requires v.defaultBuildType == "" && v.crossConfigs == "" && v.defaultConfigs == ""
    requires ConfigurationList(v.configurationTypes)[0] != "all"
    ensures var first := ConfigurationList(v.configurationTypes)[0];
      InspectConfigTypeVariables(v) ==
        Ok(ConfigSelection(Elems(ConfigurationList(v.configurationTypes)), first, {},
                           if first == "" then {} else {first}))
  {
    var configsVec := ConfigurationList(v.configurationTypes);
    var first := configsVec[0];
    var configs := Elems(configsVec);
    assert first in configs;
    ExpandEmpty();
    SubsetWithAllCases(configs, configs, []);
    if first != "" {
      ExpandSingle(first);
      SubsetOfOne(first);
    }
  }

  lemma SubsetOfOne(x: string)
    requires x != "all"
    ensures SubsetWithAll(GetCrossConfigs({}, x), {}, [x]) == Some({x})
  {
    assert Elems([x]) == {x};
  }

  /** CMAKE_CROSS_CONFIGS set to "all" enables every configuration. */
  lemma CrossAll(v: ConfigVariables)
    requires v.crossConfigs == "all"
    requires InspectConfigTypeVariables(v).Ok?
    ensures InspectConfigTypeVariables(v).value.crossConfigs == Elems(ConfigurationList(v.configurationTypes))
  {
    ExpandSingle("all");
  }

  /* ---------------- TargetDependsClosureKey ---------------- */

  /**
   * A closure key: the target (its pointer, compared as an address), the
   * configuration and whether the key is for a generator-expression output.
   */
  datatype ClosureKey = ClosureKey(target: nat, config: string, genexOutput: bool)

  /** operator< on bool. */
  predicate BoolLess(a: bool, b: bool)
  {
    !a && b
  }

  /** operator<: lexicographic on (target, config, genexOutput). */
  predicate KeyLess(l: ClosureKey, r: ClosureKey)
  {
    l.target < r.target
    || (l.target == r.target
        && (Below(l.config, r.config) || (l.config == r.config && BoolLess(l.genexOutput, r.genexOutput))))
  }

  /** operator>: the swapped operator<. */
  predicate KeyGreater(l: ClosureKey, r: ClosureKey)
  {
    KeyLess(r, l)
  }

  /** operator<=: not operator>. */
  predicate KeyLessEq(l: ClosureKey, r: ClosureKey)
  {
    !KeyGreater(l, r)
  }

  /** operator>=: the swapped operator<=. */
  predicate KeyGreaterEq(l: ClosureKey, r: ClosureKey)
  {
    KeyLessEq(r, l)
  }

  lemma KeyLessIrreflexive(k: ClosureKey)
    ensures !KeyLess(k, k)
  {
    BelowIrreflexive(k.config);
  }

  lemma KeyLessTransitive(a: ClosureKey, b: ClosureKey, c: ClosureKey)
    requires KeyLess(a, b) && KeyLess(b, c)
    ensures KeyLess(a, c)
  {
    if a.target == b.target == c.target && Below(a.config, b.config) && Below(b.config, c.config) {
      BelowTransitive(a.config, b.config, c.config);
    }
  }

  /** Any two distinct keys are ordered one way. */
  lemma KeyLessTotal(a: ClosureKey, b: ClosureKey)
    ensures a == b || KeyLess(a, b) || KeyLess(b, a)
  {
    BelowTotal(a.config, b.config);
  }

  lemma KeyLessAsymmetric(a: ClosureKey, b: ClosureKey)
    ensures !(KeyLess(a, b) && KeyLess(b, a))
  {
    if KeyLess(a, b) && KeyLess(b, a) {
      KeyLessTransitive(a, b, a);
      KeyLessIrreflexive(a);
    }
  }

  /** The derived operators agree with the strict order and equality. */
  lemma DerivedOperators(a: ClosureKey, b: ClosureKey)
    ensures KeyLessEq(a, b) <==> KeyLess(a, b) || a == b
    ensures KeyGreaterEq(a, b) <==> KeyLess(b, a) || a == b
    ensures KeyGreater(a, b) <==> !KeyLess(a, b) && a != b
  {
    KeyLessTotal(a, b);
    KeyLessAsymmetric(a, b);
    KeyLessIrreflexive(a);
  }

  /* ---------------- build file names ---------------- */

  const ImplPrefix: string := "CMakeFiles/impl-"
  const ConfigPrefix: string := "fbuild-"

  /** GetFastbuildImplFilename, with FASTBUILD_FILE_EXTENSION as `ext`. */
  function ImplFilename(config: string, ext: string): (r: string)
    ensures |r| == |ImplPrefix| + |config| + |ext|
    ensures r[..|ImplPrefix|] == ImplPrefix
  {
    ImplPrefix + config + ext
  }

  /** GetFastbuildConfigFilename, with FASTBUILD_FILE_EXTENSION as `ext`. */
  function ConfigFilename(config: string, ext: string): (r: string)
    ensures |r| == |ConfigPrefix| + |config| + |ext|
    ensures r[..|ConfigPrefix|] == ConfigPrefix
  {
    ConfigPrefix + config + ext
  }

  /** Distinct configurations get distinct implementation and configuration files. */
  lemma FilenamesInjective(a: string, b: string, ext: string)
    ensures ImplFilename(a, ext) == ImplFilename(b, ext) ==> a == b
    ensures ConfigFilename(a, ext) == ConfigFilename(b, ext) ==> a == b
  {
    if ImplFilename(a, ext) == ImplFilename(b, ext) {
      assert a == ImplFilename(a, ext)[|ImplPrefix|..|ImplPrefix| + |a|];
      assert b == ImplFilename(b, ext)[|ImplPrefix|..|ImplPrefix| + |b|];
    }
    if ConfigFilename(a, ext) == ConfigFilename(b, ext) {
      assert a == ConfigFilename(a, ext)[|ConfigPrefix|..|ConfigPrefix| + |a|];
      assert b == ConfigFilename(b, ext)[|ConfigPrefix|..|ConfigPrefix| + |b|];
    }
  }

  /** An implementation file never collides with a configuration file. */
  lemma FilenamesApart(a: string, b: string, ext: string)
    ensures ImplFilename(a, ext) != ConfigFilename(b, ext)
  {
    assert ImplFilename(a, ext)[0] == 'C';
    assert ConfigFilename(b, ext)[0] == 'f';
  }
}
