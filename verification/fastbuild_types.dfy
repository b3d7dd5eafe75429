// The plain records the FASTBuild generator passes around: rules, build
// statements and the kind of dependency a target contributes.

module FastbuildTypes {

  /** cmFastbuildTargetDepends: depend on a target's artifact or only on its ordering. */
  datatype TargetDepends = DependOnTargetArtifact | DependOnTargetOrdering

  /** cmFastbuildDeps: an ordered list that may repeat entries. */
  type Deps = seq<string>

  /** cmFastbuildOuts: a set of paths. */
  type Outs = set<string>

  /** cmFastbuildVars: variable bindings of a build statement. */
  type Vars = map<string, string>

  /** cmFastbuildRule. */
  datatype Rule = Rule(
    name: string,
    command: string,
    description: string,
    comment: string,
    depFile: string,
    depType: string,
    rspFile: string,
    rspContent: string,
    restat: string,
    generator: bool)

  /** cmFastbuildBuild. */
  datatype Build = Build(
    comment: string,
    rule: string,
    outputs: Deps,
    implicitOuts: Deps,
    explicitDeps: Deps,
    implicitDeps: Deps,
    orderOnlyDeps: Deps,
    variables: Vars,
    rspFile: string)

  /** cmFastbuildRule(name): only the name is set. */
  function NewRule(name: string): (r: Rule)
    ensures r.name == name && !r.generator
    ensures r.command == r.description == r.comment == r.depFile == r.depType == ""
    ensures r.rspFile == r.rspContent == r.restat == ""
  {
    Rule(name, "", "", "", "", "", "", "", "", false)
  }

  /** cmFastbuildBuild(rule): only the rule is set. */
  function NewBuild(rule: string): (b: Build)
    ensures b.rule == rule && b.comment == "" && b.rspFile == ""
    ensures b.outputs == b.implicitOuts == b.explicitDeps == b.implicitDeps == b.orderOnlyDeps == []
    ensures b.variables == map[]
  {
    Build("", rule, [], [], [], [], [], map[], "")
  }

  /** cmFastbuildBuild(): the build statement of the empty rule name. */
  function EmptyBuild(): (b: Build)
    ensures b == NewBuild("") && b.rule == ""
  {
    Build("", "", [], [], [], [], [], map[], "")
  }
}
