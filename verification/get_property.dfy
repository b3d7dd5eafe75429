// cmGetCMakePropertyCommand::InitialPass: the value get_cmake_property()
// stores in its output variable.

module GetCMakeProperty {
  import opened Text
  import opened CMakeMakefile

  const NotFound := "NOTFOUND"
  const ArgCountText := "called with incorrect number of arguments"

  /**
   * The value of a global property. `variables` are the makefile's variable
   * names as GetDefinitions lists them, `macros` the list GetListOfMacros
   * gives, `components` the install components and `properties` the
   * properties of the cmake instance.
   */
  function PropertyValue(property: string, variables: seq<string>, macros: string,
                         components: set<string>, properties: map<string, string>): string
  {
    if property == "VARIABLES" then (if variables == [] then NotFound else Join(variables, ";"))
    else if property == "MACROS" then macros
    else if property == "COMPONENTS" then Join(SortedKeys(components), ";")
    else if property in properties then properties[property]
    else NotFound
  }

  /** The list loop: each item after a separator that is "" the first time and ";" afterwards. */
  method JoinList(items: seq<string>) returns (output: string)
    ensures output == Join(items, ";")
  {
    output := "";
    var sep := "";
    var i := 0;
    while i < |items|
      invariant i <= |items| && output == Join(items[..i], ";")
      invariant sep == if i == 0 then "" else ";"
    {
      if i > 0 {
        JoinSnoc(items[..i], items[i], ";");
      }
      TakeSnoc(items, i);
      output := output + sep;
      output := output + items[i];
      sep := ";";
      i := i + 1;
    }
    assert items[..i] == items;
  }

  /** get_cmake_property(<variable> <property>): stores the property's value in the variable. */
  method InitialPass(mf: Makefile, args: seq<string>, variables: seq<string>, macros: string,
                     components: set<string>, properties: map<string, string>)
    returns (ok: bool, error: string)
    modifies mf
    ensures |args| < 2 ==> !ok && error == ArgCountText && mf.State() == old(mf.State())
    ensures |args| >= 2 ==>
      && ok && error == ""
      && mf.State() == old(mf.State()).(definitions :=
           old(mf.definitions)[args[0] := PropertyValue(args[1], variables, macros, components, properties)])
  {
    if |args| < 2 {
      return false, ArgCountText;
    }
    var variable := args[0];
    var output := NotFound;
    if args[1] == "VARIABLES" {
      if variables != [] {
        output := JoinList(variables);
      }
    } else if args[1] == "MACROS" {
      output := macros;
    } else if args[1] == "COMPONENTS" {
      output := JoinList(SortedKeys(components));
    } else if args[1] in properties {
      output := properties[args[1]];
    }
    mf.AddDefinition(variable, output);
    ok, error := true, "";
  }

  /** VARIABLES with no variables keeps NOTFOUND; otherwise the list splits back into the variable names. */
  lemma VariablesListed(variables: seq<string>, macros: string, components: set<string>, properties: map<string, string>)
    requires forall i :: 0 <= i < |variables| ==> ';' !in variables[i]
    ensures var value := PropertyValue("VARIABLES", variables, macros, components, properties);
      && (variables == [] ==> value == NotFound)
      && (variables != [] ==> Split(value, ';') == variables)
  {
    if variables != [] {
      SplitJoin(variables, ';');
    }
  }

  /** COMPONENTS with no components is ""; otherwise the list splits into every component, each once. */
  lemma ComponentsListed(components: set<string>, variables: seq<string>, macros: string, properties: map<string, string>)
    requires forall c :: c in components ==> ';' !in c
    ensures var value := PropertyValue("COMPONENTS", variables, macros, components, properties);
      && (components == {} ==> value == "")
      && (components != {} ==> var listed := Split(value, ';');
            Elems(listed) == components && |listed| == |components|)
  {
    var sorted := SortedKeys(components);
    if components != {} {
      forall i | 0 <= i < |sorted|
        ensures ';' !in sorted[i]
      {
        assert sorted[i] in Elems(sorted);
      }
      SplitJoin(sorted, ';');
    }
  }

  /** Any other property is its value when the cmake instance has it, NOTFOUND otherwise. */
  lemma OtherProperty(property: string, variables: seq<string>, macros: string,
                      components: set<string>, properties: map<string, string>)
    requires property !in {"VARIABLES", "MACROS", "COMPONENTS"}
    ensures PropertyValue(property, variables, macros, components, properties) ==
      if property in properties then properties[property] else NotFound
  {
  }
}
