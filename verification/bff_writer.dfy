// The mutable state of the global generator that shapes the .bff text: the
// scope writer (indentation prefix and pending closers), the target alias
// table, and the set of rules already written.

module BffWriter {
  import opened Text
  import opened FastbuildTypes

  /** Every character of `s` is a tab. */
  predicate AllTabs(s: string)
  {
    forall i :: 0 <= i < |s| ==> s[i] == '\t'
  }

  /** `s` without its last character. */
  function DropLast(s: string): (r: string)
    requires s != []
    ensures |r| == |s| - 1 && r + [s[|s| - 1]] == s
  {
    s[..|s| - 1]
  }

  /** Each value after `prefix`: the lines WriteArray writes inside its scope. */
  function Prefixed(prefix: string, values: seq<string>): (r: seq<string>)
    ensures |r| == |values| && forall i :: 0 <= i < |values| ==> r[i] == prefix + values[i]
  {
    seq(|values|, i requires 0 <= i < |values| => prefix + values[i])
  }

  /** The line of WriteVariableFB. */
  function VariableLine(prefix: string, key: string, value: string, operation: string): string
  {
    prefix + "." + key + " " + operation + " " + value
  }

  /** The line of WriteCommand: the value, if any, in parentheses. */
  function CommandLine(prefix: string, command: string, value: string): string
  {
    prefix + command + (if value == "" then "" else "(" + value + ")")
  }

  /**
   * The .bff scope writer: `linePrefix` holds one tab per open scope and
   * `closingScope` the closer of each open scope, innermost last. The stream
   * is modelled by `lines`, the lines written to it (without their newline).
   */
  class ScopeWriter {
    var linePrefix: string
    var closingScope: string
    var lines: seq<string>

    /** One closer per level of indentation, and the prefix is made of tabs. */
    predicate Valid()
      reads this
    {
      |linePrefix| == |closingScope| && AllTabs(linePrefix)
    }

    constructor ()
      ensures Valid() && linePrefix == "" && closingScope == "" && lines == []
    {
      linePrefix := "";
      closingScope := "";
      lines := [];
    }

    /** The reset before the .bff files are written: no scope is open. */
    method Reset()
      modifies this
      ensures Valid() && linePrefix == "" && closingScope == "" && lines == old(lines)
    {
      linePrefix := "";
      closingScope := "";
    }

    /** WritePushScope(begin, end): the opener at the current prefix, then one level deeper. */
    method PushScope(begin: char, end: char)
      requires Valid()
      modifies this
      ensures Valid()
      ensures lines == old(lines) + [old(linePrefix) + [begin]]
      ensures linePrefix == old(linePrefix) + "\t" && closingScope == old(closingScope) + [end]
    {
      lines := lines + [linePrefix + [begin]];
      linePrefix := linePrefix + "\t";
      closingScope := closingScope + [end];
    }

    /** WritePopScope: one level up, then the closer of the innermost scope at that prefix. */
    method PopScope()
      requires Valid() && linePrefix != ""
      modifies this
      ensures Valid()
      ensures linePrefix == DropLast(old(linePrefix)) && closingScope == DropLast(old(closingScope))
      ensures lines == old(lines) + [linePrefix + [old(closingScope)[|old(closingScope)| - 1]]]
    {
      linePrefix := DropLast(linePrefix);
      lines := lines + [linePrefix + [closingScope[|closingScope| - 1]]];
      closingScope := DropLast(closingScope);
    }

    /** WriteVariableFB: `.key operation value` at the current prefix. */
    method WriteVariable(key: string, value: string, operation: string)
      modifies this
      ensures linePrefix == old(linePrefix) && closingScope == old(closingScope)
      ensures lines == old(lines) + [VariableLine(linePrefix, key, value, operation)]
    {
      lines := lines + [linePrefix + "." + key + " " + operation + " " + value];
    }

    /** WriteCommand: the command, with its value in parentheses when there is one. */
    method WriteCommand(command: string, value: string)
      modifies this
      ensures linePrefix == old(linePrefix) && closingScope == old(closingScope)
      ensures lines == old(lines) + [CommandLine(linePrefix, command, value)]
    {
      var call := if value == "" then "" else "(" + value + ")";
      lines := lines + [linePrefix + command + call];
    }

    /** WriteCommentFB: nothing for an empty comment. */
    method WriteComment(comment: string)
      modifies this
      ensures linePrefix == old(linePrefix) && closingScope == old(closingScope)
      ensures lines == old(lines) + (if comment == "" then [] else [linePrefix + "// " + comment])
    {
      if comment != "" {
        lines := lines + [linePrefix + "// " + comment];
      }
    }

    /**
     * WriteArray: the variable, a scope holding one value per line, and the
     * matching closer at the original prefix; the scope state is restored.
     */
    method WriteArray(key: string, values: seq<string>, begin: char, end: char, operation: string)
      requires Valid()
      modifies this
      ensures Valid() && linePrefix == old(linePrefix) && closingScope == old(closingScope)
      ensures lines == old(lines)
                       + [VariableLine(linePrefix, key, "", operation), linePrefix + [begin]]
                       + Prefixed(linePrefix + "\t", values)
                       + [linePrefix + [end]]
    {
      WriteVariable(key, "", operation);
      PushScope(begin, end);
      ghost var l2 := lines;
      assert l2 == old(lines) + [VariableLine(old(linePrefix), key, "", operation), old(linePrefix) + [begin]];
      var index := 0;
      while index < |values|
        invariant 0 <= index <= |values| && Valid()
        invariant linePrefix == old(linePrefix) + "\t" && closingScope == old(closingScope) + [end]
        invariant lines == l2 + Prefixed(linePrefix, values[..index])
      {
        lines := lines + [linePrefix + values[index]];
        index := index + 1;
      }
      assert values[..index] == values;
      ghost var l3 := lines;
      PopScope();
      assert linePrefix == old(linePrefix);
      assert lines == l3 + [old(linePrefix) + [end]];
    }

    /** WriteAliasFB: an Alias section listing `targets`; the scope state is restored. */
    method WriteAlias(nameAlias: string, targets: string)
      requires Valid()
      modifies this
      ensures Valid() && linePrefix == old(linePrefix) && closingScope == old(closingScope)
      ensures lines == old(lines) + [
        CommandLine(linePrefix, "Alias", nameAlias),
        linePrefix + "{",
        VariableLine(linePrefix + "\t", "Targets", "{ " + targets + " }", "="),
        linePrefix + "}"]
    {
      WriteCommand("Alias", nameAlias);
      PushScope('{', '}');
      WriteVariable("Targets", "{ " + targets + " }", "=");
      ghost var l3 := lines;
      PopScope();
      assert linePrefix == old(linePrefix);
      assert lines == l3 + [old(linePrefix) + "}"];
    }
  }

  // ---------------------------------------------------------------------
  // Target aliases (AddTargetAliasFB / WriteTargetAliasesFB)

  /** TargetAliasFB. */
  datatype Alias = Alias(config: string, listDeps: string, excludeFromAll: bool)

  /** `a` is recorded as excluded from "all". */
  predicate Excluded(aliases: map<string, Alias>, a: string)
  {
    a in aliases && aliases[a].excludeFromAll
  }

  /** The aliases of `ordered` that go into "all" (excluded == false) or "other" (excluded == true). */
  function Selected(ordered: seq<string>, aliases: map<string, Alias>, excluded: bool): (r: seq<string>)
    ensures |r| <= |ordered|
  {
    if ordered == [] then []
    else (if Excluded(aliases, ordered[0]) == excluded then [ordered[0]] else [])
         + Selected(ordered[1..], aliases, excluded)
  }

  /** An alias is listed exactly when it is in the table order and its flag matches. */
  lemma {:induction false} SelectedMembers(ordered: seq<string>, aliases: map<string, Alias>, excluded: bool, a: string)
    ensures a in Selected(ordered, aliases, excluded) <==> a in ordered && Excluded(aliases, a) == excluded
  {
    if ordered != [] {
      SelectedMembers(ordered[1..], aliases, excluded, a);
    }
  }

  /** `a` is recorded for `config`. */
  predicate ForConfig(aliases: map<string, Alias>, a: string, config: string)
  {
    a in aliases && aliases[a].config == config
  }

  /** The aliases of `ordered` for configuration `config` going into "all" or "other" (multi-config). */
  function SelectedFor(ordered: seq<string>, aliases: map<string, Alias>, config: string, excluded: bool): (r: seq<string>)
    ensures |r| <= |ordered|
  {
    if ordered == [] then []
    else (if ForConfig(aliases, ordered[0], config) && Excluded(aliases, ordered[0]) == excluded
          then [ordered[0]] else [])
         + SelectedFor(ordered[1..], aliases, config, excluded)
  }

  /** The configurations whose implementation files get alias sections in multi-config mode, in map order. */
  const AliasConfigs: seq<string> := ["Debug", "RelWithDebInfo", "Release"]

  /**
   * An alias is listed for a configuration exactly when it is recorded for
   * it; so an alias recorded for any other configuration is written nowhere.
   */
  lemma {:induction false} SelectedForMembers(ordered: seq<string>, aliases: map<string, Alias>, config: string, excluded: bool, a: string)
    ensures a in SelectedFor(ordered, aliases, config, excluded) <==>
      a in ordered && ForConfig(aliases, a, config) && Excluded(aliases, a) == excluded
    ensures ForConfig(aliases, a, config) && config !in AliasConfigs ==>
      forall c :: c in AliasConfigs ==> a !in SelectedFor(ordered, aliases, c, excluded)
  {
    if ordered != [] {
      SelectedForMembers(ordered[1..], aliases, config, excluded, a);
      forall c | c in AliasConfigs
        ensures ForConfig(aliases, a, config) && config !in AliasConfigs ==> a !in SelectedFor(ordered, aliases, c, excluded)
      {
        SelectedForMembers(ordered[1..], aliases, c, excluded, a);
      }
    }
  }

  /** The names of `items`, concatenated without separator (how the alias lists are built). */
  function Concat(items: seq<string>): string
  {
    if items == [] then "" else items[0] + Concat(items[1..])
  }

  /** The "all" and "other" lists split the aliases: each alias goes into exactly one. */
  lemma {:induction false} SelectedPartition(ordered: seq<string>, aliases: map<string, Alias>)
    ensures multiset(Selected(ordered, aliases, false)) + multiset(Selected(ordered, aliases, true)) == multiset(ordered)
  {
    if ordered != [] {
      var x := ordered[0];
      SelectedPartition(ordered[1..], aliases);
      assert ordered == [x] + ordered[1..];
      if Excluded(aliases, x) {
        assert Selected(ordered, aliases, true) == [x] + Selected(ordered[1..], aliases, true);
        assert Selected(ordered, aliases, false) == Selected(ordered[1..], aliases, false);
      } else {
        assert Selected(ordered, aliases, false) == [x] + Selected(ordered[1..], aliases, false);
        assert Selected(ordered, aliases, true) == Selected(ordered[1..], aliases, true);
      }
    }
  }

  /** The multi-config list of a configuration holds the single-config list's aliases recorded for it. */
  lemma {:induction false} SelectedForRefines(ordered: seq<string>, aliases: map<string, Alias>, config: string, excluded: bool)
    ensures multiset(SelectedFor(ordered, aliases, config, excluded)) <= multiset(Selected(ordered, aliases, excluded))
  {
    if ordered != [] {
      SelectedForRefines(ordered[1..], aliases, config, excluded);
    }
  }

  /** The records after AddTargetAliasFB of `name`: the first record of an alias wins. */
  function Recorded(aliases: map<string, Alias>, name: string, record: Alias): (r: map<string, Alias>)
    ensures r.Keys == aliases.Keys + {name}
    ensures forall a :: a in aliases ==> r[a] == aliases[a]
    ensures name !in aliases ==> r[name] == record
  {
    if name in aliases then aliases else aliases[name := record]
  }

  /** The alias table: the records by name, and the names in first-insertion order. */
  class AliasTable {
    var aliases: map<string, Alias>
    var ordered: seq<string>

    predicate Valid()
      reads this
    {
      aliases.Keys == Elems(ordered) && Distinct(ordered)
    }

    constructor ()
      ensures Valid() && aliases == map[] && ordered == []
    {
      aliases := map[];
      ordered := [];
    }

    /** AddTargetAliasFB: insert if absent; the first record of an alias wins. */
    method Add(alias: string, listDeps: string, config: string, excludeFromAll: bool)
      requires Valid()
      modifies this
      ensures Valid() && alias in aliases
      ensures old(alias in aliases) ==> aliases == old(aliases) && ordered == old(ordered)
      ensures old(alias !in aliases) ==>
        aliases == old(aliases)[alias := Alias(config, listDeps, excludeFromAll)] &&
        ordered == old(ordered) + [alias]
    {
      if alias !in aliases {
        aliases := aliases[alias := Alias(config, listDeps, excludeFromAll)];
        assert Elems(ordered + [alias]) == Elems(ordered) + {alias};
        ordered := ordered + [alias];
      }
    }

    /**
     * The single-config loop of WriteTargetAliasesFB: the names of the aliases
     * to list under "all" and under "other", each in insertion order.
     */
    method Lists() returns (all: string, other: string)
      requires Valid()
      ensures all == Concat(Selected(ordered, aliases, false))
      ensures other == Concat(Selected(ordered, aliases, true))
    {
      all, other := "", "";
      var i := 0;
      while i < |ordered|
        invariant 0 <= i <= |ordered|
        invariant all == Concat(Selected(ordered[..i], aliases, false))
        invariant other == Concat(Selected(ordered[..i], aliases, true))
      {
        var name := ordered[i];
        TakeSnoc(ordered, i);
        SelectedSnoc(ordered[..i], name, aliases, false);
        SelectedSnoc(ordered[..i], name, aliases, true);
        assert name in Elems(ordered);
        var ta := aliases[name];
        if ta.excludeFromAll {
          ConcatSnoc(Selected(ordered[..i], aliases, true), name);
          other := other + name;
        } else {
          ConcatSnoc(Selected(ordered[..i], aliases, false), name);
          all := all + name;
        }
        i := i + 1;
      }
      assert ordered[..i] == ordered;
    }
  }

  lemma {:induction false} SelectedSnoc(ordered: seq<string>, a: string, aliases: map<string, Alias>, excluded: bool)
    ensures Excluded(aliases, a) == excluded ==>
      Selected(ordered + [a], aliases, excluded) == Selected(ordered, aliases, excluded) + [a]
    ensures Excluded(aliases, a) != excluded ==>
      Selected(ordered + [a], aliases, excluded) == Selected(ordered, aliases, excluded)
  {
    if ordered == [] {
      assert [a][1..] == [];
    } else {
      assert (ordered + [a])[1..] == ordered[1..] + [a];
      SelectedSnoc(ordered[1..], a, aliases, excluded);
    }
  }

  lemma {:induction false} ConcatSnoc(items: seq<string>, x: string)
    ensures Concat(items + [x]) == Concat(items) + x
  {
    if items == [] {
      assert [x][1..] == [];
    } else {
      assert (items + [x])[1..] == items[1..] + [x];
      ConcatSnoc(items[1..], x);
    }
  }

  // ---------------------------------------------------------------------
  // Rules (AddRule / HasRule)

  /** The rules written so far, with the length of their command. */
  class RuleSet {
    var rules: set<string>
    var cmdLength: map<string, int>
    /** Names of the rules in the order they were written to the rules file. */
    var written: seq<string>

    predicate Valid()
      reads this
    {
      rules == cmdLength.Keys && rules == Elems(written) && Distinct(written)
    }

    constructor ()
      ensures Valid() && rules == {} && written == []
    {
      rules := {};
      cmdLength := map[];
      written := [];
    }

    /** HasRule. */
    function Has(name: string): (r: bool)
      reads this
      requires Valid()
      ensures r <==> name in written
    {
      name in rules
    }

    /** AddRule: a rule of a name already added is neither stored nor written again. */
    method Add(rule: Rule)
      requires Valid()
      modifies this
      ensures Valid() && rule.name in rules
      ensures old(rule.name in rules) ==>
        rules == old(rules) && cmdLength == old(cmdLength) && written == old(written)
      ensures old(rule.name !in rules) ==>
        rules == old(rules) + {rule.name} &&
        cmdLength == old(cmdLength)[rule.name := |rule.command|] &&
        written == old(written) + [rule.name]
    {
      if rule.name in rules {
        return;
      }
      rules := rules + {rule.name};
      cmdLength := cmdLength[rule.name := |rule.command|];
      assert Elems(written + [rule.name]) == Elems(written) + {rule.name};
      written := written + [rule.name];
    }
  }
}
