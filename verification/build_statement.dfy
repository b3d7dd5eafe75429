// The build statements the global generator writes: WriteVariable,
// WriteBuild with its two checks and its response-file threshold, and the
// Exec section of WriteCustomCommandBuildFB (command joining, the split into
// executable and arguments, and the Exec name).

module BuildStatement {
  import opened Text
  import opened FastbuildTypes
  import opened GlobalEncoding
  import opened TargetNames
  import opened BffWriter

  /* ---------------- WriteVariable ---------------- */

  /** isspace in the C locale: space, tab, newline, vertical tab, form feed, carriage return. */
  predicate IsSpace(c: char)
  {
    c == ' ' || 9 <= c as int <= 13
  }

  /** The first index at or after `i` that does not hold white space. */
  function FrontCut(s: string, i: nat): (r: nat)
    requires i <= |s|
    ensures i <= r <= |s| && (r == |s| || !IsSpace(s[r]))
    ensures forall k :: i <= k < r ==> IsSpace(s[k])
    decreases |s| - i
  {
    if i < |s| && IsSpace(s[i]) then FrontCut(s, i + 1) else i
  }

  /** The end of `s[lo..j]` once its trailing white space is cut off. */
  function BackCut(s: string, lo: nat, j: nat): (r: nat)
    requires lo <= j <= |s|
    ensures lo <= r <= j && (r == lo || !IsSpace(s[r - 1]))
    ensures forall k :: r <= k < j ==> IsSpace(s[k])
  {
    if j > lo && IsSpace(s[j - 1]) then BackCut(s, lo, j - 1) else j
  }

  /** cmTrimWhitespace: the slice of `s` between its leading and trailing white space. */
  function Trim(s: string): (r: string)
  {
    var i := FrontCut(s, 0);
    s[i..BackCut(s, i, |s|)]
  }

  /**
   * The trimmed text is a slice of the input, does not begin or end with
   * white space, and everything cut off on either side is white space.
   */
  lemma TrimSlice(s: string)
    ensures var r := Trim(s);
      r == [] || (!IsSpace(r[0]) && !IsSpace(r[|r| - 1]))
    ensures exists i, j ::
      (0 <= i <= j <= |s| && Trim(s) == s[i..j]
       && (forall k :: 0 <= k < i ==> IsSpace(s[k]))
       && (forall k :: j <= k < |s| ==> IsSpace(s[k])))
  {
    var i := FrontCut(s, 0);
    var j := BackCut(s, i, |s|);
    assert Trim(s) == s[i..j];
  }

  /** A string without white space at either end is its own trimming. */
  lemma TrimClean(s: string)
    requires s == [] || (!IsSpace(s[0]) && !IsSpace(s[|s| - 1]))
    ensures Trim(s) == s
  {
    if s != [] {
      assert FrontCut(s, 0) == 0;
      assert BackCut(s, 0, |s|) == |s|;
    }
  }

  /** Trimming a trimmed string changes nothing. */
  lemma TrimIdempotent(s: string)
    ensures Trim(Trim(s)) == Trim(s)
  {
    TrimSlice(s);
    TrimClean(Trim(s));
  }

  const Indentation: string := "  "

  /** Indent: `count` copies of INDENT. */
  function Indent(count: nat): (r: string)
    ensures |r| == 2 * count
  {
    if count == 0 then "" else Indentation + Indent(count - 1)
  }

  /** WriteComment: nothing for an empty comment. */
  function CommentText(comment: string): (r: string)
    ensures r == "" <==> comment == ""
  {
    if comment == "" then "" else "// NINJA" + comment + "\n"
  }

  /**
   * WriteVariable: an error for an empty name, nothing for a value that is
   * only white space, otherwise the comment and the indented binding of the
   * trimmed value.
   */
  function WriteVariable(name: string, value: string, comment: string, indent: nat): (r: Result<string>)
    ensures r.Err? <==> name == ""
    ensures r.Ok? ==> (r.value == "" <==> Trim(value) == "")
  {
    if name == "" then Err("// No name given for WriteVariable! called // with comment: " + comment)
    else if Trim(value) == "" then Ok("")
    else Ok(CommentText(comment) + Indent(indent) + "// NINJA " + name + " = " + Trim(value) + "\n")
  }

  /** What a WriteVariable call adds to the stream (an error adds nothing). */
  function BindingText(name: string, value: string): string
  {
    match WriteVariable(name, value, "", 1)
    case Ok(text) => text
    case Err(_) => ""
  }

  /** The bindings of a build statement, in the ascending key order of the map. */
  function Assignments(vars: Vars): string
  {
    BindingsOf(SortedKeys(vars.Keys), vars)
  }

  function BindingsOf(keys: seq<string>, vars: Vars): string
    requires forall i :: 0 <= i < |keys| ==> keys[i] in vars
  {
    if keys == [] then "" else BindingText(keys[0], vars[keys[0]]) + BindingsOf(keys[1..], vars)
  }

  /* ---------------- WriteBuild ---------------- */

  /** Each path preceded by a space and encoded. */
  function SpacedPaths(paths: seq<string>, mode: LiteralMode): (r: string)
    ensures paths != [] ==> r != [] && r[0] == ' '
    ensures paths == [] ==> r == []
  {
    if paths == [] then "" else " " + EncodePath(paths[0], mode) + SpacedPaths(paths[1..], mode)
  }

  /** The output half of the statement: outputs, implicit outputs, ':' and the rule. */
  function BuildLine(build: Build, mode: LiteralMode): string
  {
    "// NINJA build" + SpacedPaths(build.outputs, mode)
    + (if build.implicitOuts == [] then "" else " |" + SpacedPaths(build.implicitOuts, mode))
    + ":" + " " + build.rule
  }

  /** The input half: explicit, implicit (" |") and order-only (" ||") dependencies, then a newline. */
  function ArgumentsLine(build: Build, mode: LiteralMode): string
  {
    SpacedPaths(build.explicitDeps, mode)
    + (if build.implicitDeps == [] then "" else " |" + SpacedPaths(build.implicitDeps, mode))
    + (if build.orderOnlyDeps == [] then "" else " ||" + SpacedPaths(build.orderOnlyDeps, mode))
    + "\n"
  }

  /**
   * Whether WriteBuild switches to a response file: always for a negative
   * limit, never for a zero limit, and for a positive limit when the
   * statement plus a margin of 1000 exceeds it.
   */
  predicate UseResponseFile(cmdLineLimit: int, size: nat)
  {
    cmdLineLimit < 0 || (cmdLineLimit > 0 && size + 1000 > cmdLineLimit)
  }

  /** The threshold's cases, and that a longer statement never switches back. */
  lemma ResponseFileThreshold(cmdLineLimit: int, size: nat, larger: nat)
    ensures cmdLineLimit == 0 ==> !UseResponseFile(cmdLineLimit, size)
    ensures cmdLineLimit < 0 ==> UseResponseFile(cmdLineLimit, size)
    ensures cmdLineLimit > 0 ==> (UseResponseFile(cmdLineLimit, size) <==> size > cmdLineLimit - 1000)
    ensures size <= larger && UseResponseFile(cmdLineLimit, size) ==> UseResponseFile(cmdLineLimit, larger)
  {
  }

  /**
   * The text WriteBuild writes, whether it used a response file, the outputs
   * it adds to CombinedBuildOutputs and whether it sets DisableCleandead.
   */
  datatype BuildText = BuildText(text: string, usedResponseFile: bool, combinedOutputs: set<string>,
                                 disableCleandead: bool)

  /**
   * WriteBuild: the two checks in order, then comment, statement and
   * bindings. While unknown dependencies are computed, the outputs are
   * collected; a "dyndep" binding keeps cleandead from removing them.
   */
  function WriteBuild(build: Build, mode: LiteralMode, cmdLineLimit: int, computingUnknownDependencies: bool)
    : (r: Result<BuildText>)
    ensures r.Err? <==> build.rule == "" || build.outputs == []
    ensures r.Ok? ==> (r.value.disableCleandead <==> "dyndep" in build.variables)
    ensures r.Ok? ==> r.value.combinedOutputs == if computingUnknownDependencies then Elems(build.outputs) else {}
    ensures build.rule == "" ==> r == Err("No rule for WriteBuild! called with comment: " + build.comment)
    ensures build.rule != "" && build.outputs == [] ==>
      r == Err("No output files for WriteBuild! called with comment: " + build.comment)
  {
    if build.rule == "" then Err("No rule for WriteBuild! called with comment: " + build.comment)
    else if build.outputs == [] then Err("No output files for WriteBuild! called with comment: " + build.comment)
    else
      var buildStr := BuildLine(build, mode);
      var arguments := ArgumentsLine(build, mode);
      var assignments := Assignments(build.variables);
      var useResponseFile := UseResponseFile(cmdLineLimit, |arguments| + |buildStr| + |assignments|);
      var allAssignments := if useResponseFile then assignments + BindingText("RSP_FILE", build.rspFile)
                            else assignments;
      Ok(BuildText(CommentText(build.comment) + buildStr + arguments + allAssignments + "\n", useResponseFile,
                   if computingUnknownDependencies then Elems(build.outputs) else {}, "dyndep" in build.variables))
  }

  /** A negative limit always writes the RSP_FILE binding; a zero limit never does. */
  lemma WriteBuildResponseFile(build: Build, mode: LiteralMode, cmdLineLimit: int, computing: bool)
    requires build.rule != "" && build.outputs != []
    ensures cmdLineLimit < 0 ==> WriteBuild(build, mode, cmdLineLimit, computing).value.usedResponseFile
    ensures cmdLineLimit == 0 ==> !WriteBuild(build, mode, cmdLineLimit, computing).value.usedResponseFile
  {
  }

  /* ---------------- reading a path list back ---------------- */

  /** One escaped word, up to the next unescaped space, and what follows it. */
  function ReadWord(t: string): (r: (string, string))
    ensures |r.1| <= |t|
  {
    if t == [] then ([], [])
    else if t[0] == '$' && |t| >= 2 then
      var (w, rest) := ReadWord(t[2..]);
      ([t[1]] + w, rest)
    else if t[0] == ' ' then ([], t)
    else
      var (w, rest) := ReadWord(t[1..]);
      ([t[0]] + w, rest)
  }

  /** The words of a list in which every word follows one space. */
  function Words(t: string): seq<string>
    decreases |t|
  {
    if t == [] || t[0] != ' ' then []
    else
      var (w, rest) := ReadWord(t[1..]);
      [w] + Words(rest)
  }

  lemma {:induction false} ReadEscaped(p: string, rest: string, specials: set<char>)
    requires '$' in specials && ' ' in specials
    requires rest == [] || rest[0] == ' '
    ensures ReadWord(Escape(p, specials) + rest) == (p, rest)
  {
    if p != [] {
      ReadEscaped(p[1..], rest, specials);
      var head := if p[0] in specials then ['$', p[0]] else [p[0]];
      var tail := Escape(p[1..], specials) + rest;
      AppendAssociates(head, Escape(p[1..], specials), rest);
      var t := head + tail;
      assert t[|head|..] == tail;
      assert p == [p[0]] + p[1..];
    } else {
      assert Escape(p, specials) + rest == rest;
    }
  }

  /**
   * In single-config mode the encoded path lists of a build statement can be
   * read back: splitting at the unescaped spaces and unescaping gives the
   * original paths, spaces and colons inside a path included.
   */
  lemma {:induction false} PathListRoundTrip(paths: seq<string>, mode: LiteralMode)
    requires !mode.multiConfig
    ensures Words(SpacedPaths(paths, mode)) == paths
  {
    if paths != [] {
      var S := {'$', '\n', ' ', ':'};
      var rest := SpacedPaths(paths[1..], mode);
      SpacedHead(paths, mode);
      PathRoundTrip(paths[0], mode);
      ReadEscaped(paths[0], rest, S);
      PathListRoundTrip(paths[1..], mode);
      assert paths == [paths[0]] + paths[1..];
    }
  }

  lemma SpacedHead(paths: seq<string>, mode: LiteralMode)
    requires paths != []
    ensures SpacedPaths(paths, mode)[1..] == EncodePath(paths[0], mode) + SpacedPaths(paths[1..], mode)
  {
  }

  /* ---------------- WriteCustomCommandBuildFB ---------------- */

  /** The joined command: the only command, or all but the first joined with " && ". */
  function CommandJoin(commands: seq<string>): string
  {
    if |commands| <= 1 then Join(commands, " && ") else Join(commands[1..], " && ")
  }

  /** The counting loop of WriteCustomCommandBuildFB that builds the command. */
  method JoinCommands(commands: seq<string>) returns (command: string)
    ensures command == CommandJoin(commands)
  {
    command := "";
    var i := 0;
    while i < |commands|
      invariant i <= |commands|
      invariant |commands| > 1 && i <= 1 ==> command == ""
      invariant |commands| > 1 && i > 1 ==> command == Join(commands[1..i], " && ")
      invariant |commands| <= 1 ==> command == Join(commands[..i], " && ")
    {
      var a := commands[i];
      if i == 0 && |commands| > 1 {
        i := i + 1;
        continue;
      }
      if i > 1 && i < |commands| {
        command := command + " && ";
      }
      if |commands| > 1 && i > 1 {
        assert commands[1..i + 1] == commands[1..i] + [a];
        JoinSnoc(commands[1..i], a, " && ");
      } else if |commands| > 1 {
        assert commands[1..i + 1] == [a];
      } else {
        assert commands[..i + 1] == [a];
      }
      command := command + a;
      i := i + 1;
    }
    if |commands| <= 1 {
      assert commands[..i] == commands;
    } else {
      assert commands[1..i] == commands[1..];
    }
  }

  /** The command split at its first space: executable, then arguments with their leading space. */
  function SplitCommand(command: string): (r: (string, string))
    ensures r.0 + r.1 == command
    ensures ' ' !in r.0
    ensures r.1 == "" || r.1[0] == ' '
  {
    match Find(command, ' ')
    case None => (command, "")
    case Some(i) => (command[..i], command[i..])
  }

  /**
   * With several commands the first one is dropped, and the executable is
   * the first word of the second command.
   */
  lemma ExecutableOfSecondCommand(commands: seq<string>, i: nat)
    requires |commands| > 1
    requires i < |commands[1]| && commands[1][i] == ' ' && ' ' !in commands[1][..i]
    ensures SplitCommand(CommandJoin(commands)).0 == commands[1][..i]
  {
    var joined := CommandJoin(commands);
    var second := commands[1];
    assert commands[1..][0] == second;
    assert second <= joined;
    assert joined[i] == ' ' && joined[..i] == second[..i];
    FindFirst(joined, ' ', i);
  }

  /** ExecOutput: the outputs concatenated, each followed by "/" and the random file name if there is one. */
  function ExecOutput(outputs: seq<string>, randomNameFile: string): (r: string)
    ensures randomNameFile == "" && |outputs| == 1 ==> r == outputs[0]
  {
    if outputs == [] then ""
    else outputs[0] + (if randomNameFile == "" then "" else "/" + randomNameFile)
         + ExecOutput(outputs[1..], randomNameFile)
  }

  /** With a random output file, a single output's Exec name comes from that file. */
  lemma ExecNameOfRandomFile(output: string, randomNameFile: string)
    requires randomNameFile != "" && '/' !in randomNameFile
    requires '\\' !in output && '\\' !in randomNameFile
    ensures GetNameFile(ExecOutput([output], randomNameFile)) == UpToDot(randomNameFile)
  {
    var path := output + "/" + randomNameFile;
    assert ExecOutput([output], randomNameFile) == path;
    assert path[|output| + 1..] == randomNameFile;
    assert '\\' !in path by {
      assert forall k :: 0 <= k < |path| ==> path[k] in output || path[k] == '/' || path[k] in randomNameFile;
    }
    NameFileOneSeparator(path, '/', '\\', |output|);
  }

  /** The fields of the Exec section a custom command writes. */
  datatype ExecSection = ExecSection(
    name: string,
    configuration: string,
    executable: string,
    arguments: string,
    output: string,
    workingDir: string,
    useStdOutAsOutput: string)

  /**
   * WriteCustomCommandBuildFB: the Exec section's fields, and the alias
   * name+"-deps" → name registered in the alias table.
   */
  method WriteCustomCommandBuild(commands: seq<string>, outputs: Deps, config: string,
                                 randomNameFile: string, workingDirectory: string,
                                 excludeFromAll: bool, quotation: string, table: AliasTable)
    returns (exec: ExecSection)
    requires table.Valid()
    modifies table
    ensures exec.executable + exec.arguments == CommandJoin(commands)
    ensures ' ' !in exec.executable && (exec.arguments == "" || exec.arguments[0] == ' ')
    ensures exec.output == ExecOutput(outputs, randomNameFile)
    ensures exec.name == MapChar(GetNameFile(exec.output) + config, '-', "_") && '-' !in exec.name
    ensures exec.configuration == config
    ensures exec.workingDir == (if workingDirectory == "" then "./" else workingDirectory)
    ensures exec.useStdOutAsOutput == (if randomNameFile == "" then "false" else "true")
    ensures table.Valid() && Quote(exec.name + "-deps", quotation) in table.aliases
    ensures var alias := Quote(exec.name + "-deps", quotation);
      old(alias in table.aliases) ==> table.aliases == old(table.aliases) && table.ordered == old(table.ordered)
    ensures table.aliases == Recorded(old(table.aliases), Quote(exec.name + "-deps", quotation),
                                      Alias(config, Quote(exec.name, quotation), excludeFromAll))
  {
    var command := JoinCommands(commands);
    var output := "";
    var k := 0;
    while k < |outputs|
      invariant k <= |outputs|
      invariant output + ExecOutput(outputs[k..], randomNameFile) == ExecOutput(outputs, randomNameFile)
    {
      assert outputs[k..][1..] == outputs[k + 1..];
      output := output + outputs[k];
      if randomNameFile != "" {
        output := output + "/" + randomNameFile;
      }
      k := k + 1;
    }
    var split := SplitCommand(command);
    var nameExec := ReplaceEach(GetNameFile(output) + config, '-', "_");
    MapCharRemoves(GetNameFile(output) + config, '-', "_");
    var workingDir := if workingDirectory == "" then "./" else workingDirectory;
    exec := ExecSection(nameExec, config, split.0, split.1, output, workingDir,
                        if randomNameFile == "" then "false" else "true");
    table.Add(Quote(nameExec + "-deps", quotation), Quote(nameExec, quotation), config, excludeFromAll);
  }
}
