// cmQtAutoRcc: the validation of the info file, the derived output paths,
// and the decision whether the rcc output, the configuration wrapper and
// the settings file are regenerated, touched or left alone. The file
// system is seen through the outcomes and file times a run observes (a
// Host value), and what the run does to it is recorded as a sequence of
// effects.

module QtAutoRcc {
  import opened Text
  import opened QtAutoGenerator

  /** A file modification time; only their order matters (cmFileTime::Older is `<`). */
  type Time = int

  /** The values the info file defines, with the per-configuration ones already chosen. */
  datatype InfoValues = InfoValues(
    verbosity: string,
    multiConfig: bool,
    buildDir: string,
    includeDir: string,
    rccExecutable: string,
    lockFile: string,
    qrcFile: string,
    checksum: string,
    outputName: string,
    inputs: seq<string>,
    settingsFile: string)

  /** The errors Init reports, in the order it checks them. */
  datatype InitError =
    | InfoFileFailed
    | BuildDirEmpty
    | IncludeDirEmpty
    | RccExecutableNotFound
    | LockFileMissing
    | SettingsFileMissing
    | AutogenBuildDirMissing
    | RccExecutableMissing
    | QrcFileMissing
    | OutputFileMissing

  /** Init's validation: the first check that fails, if any. */
  function InitFailure(info: InfoValues, readOk: bool, rccExecutableFound: bool): Option<InitError>
  {
    if !readOk then Some(InfoFileFailed)
    else if info.buildDir == "" then Some(BuildDirEmpty)
    else if info.includeDir == "" then Some(IncludeDirEmpty)
    else if !rccExecutableFound then Some(RccExecutableNotFound)
    else if info.lockFile == "" then Some(LockFileMissing)
    else if info.settingsFile == "" then Some(SettingsFileMissing)
    else if info.buildDir == "" then Some(AutogenBuildDirMissing)
    else if info.rccExecutable == "" then Some(RccExecutableMissing)
    else if info.qrcFile == "" then Some(QrcFileMissing)
    else if info.outputName == "" then Some(OutputFileMissing)
    else None
  }

  /**
   * Init succeeds exactly when the info file was read, the rcc executable
   * exists and none of the directories and file names is empty; the second
   * build directory check can never be the one that fails.
   */
  lemma InitFailureIff(info: InfoValues, readOk: bool, rccExecutableFound: bool)
    ensures InitFailure(info, readOk, rccExecutableFound).None? <==>
      readOk && rccExecutableFound && info.buildDir != "" && info.includeDir != ""
      && info.lockFile != "" && info.settingsFile != "" && info.rccExecutable != ""
      && info.qrcFile != "" && info.outputName != ""
    ensures InitFailure(info, readOk, rccExecutableFound) != Some(AutogenBuildDirMissing)
  {
  }

  /** What a run works with, derived by Init. */
  datatype Job = Job(
    multiConfig: bool,
    rccExecutable: string,
    rccExecutableTime: Time,
    lockFile: string,
    qrcFile: string,
    inputs: seq<string>,
    settingsFile: string,
    multiConfigOutput: string,
    wrapperContent: string,
    rccFilePublic: string,
    rccFileOutput: string)

  /** MultiConfigOutput: the checksum directory and the output name with its "_CMAKE_" suffix. */
  function MultiConfigOutput(checksum: string, suffixedName: string): string
  {
    checksum + "/" + suffixedName
  }

  /**
   * The derived paths: the public file is build/checksum/name; the output is
   * that file in single-configuration mode and include/MultiConfigOutput in
   * multi-configuration mode. `appendSuffix` is AppendFilenameSuffix.
   */
  function JobOf(info: InfoValues, rccExecutableTime: Time, appendSuffix: (string, string) -> string): (job: Job)
  {
    var multiConfigOutput := MultiConfigOutput(info.checksum, appendSuffix(info.outputName, "_CMAKE_"));
    var rccFilePublic := info.buildDir + "/" + info.checksum + "/" + info.outputName;
    Job(info.multiConfig, info.rccExecutable, rccExecutableTime, info.lockFile, info.qrcFile, info.inputs,
        info.settingsFile, multiConfigOutput, WrapperContent(multiConfigOutput), rccFilePublic,
        if info.multiConfig then info.includeDir + "/" + multiConfigOutput else rccFilePublic)
  }

  /** The comment lines and the include directive that open the configuration wrapper. */
  const WrapperHead: string :=
    "// This is an autogenerated configuration wrapper file.\n// Changes will be overwritten.\n#include <"

  /** The configuration wrapper that includes the real output. */
  function WrapperContent(multiConfigOutput: string): string
  {
    WrapperHead + multiConfigOutput + ">\n"
  }

  /** The wrapper ends by including the output it is given. */
  lemma WrapperIncludes(m: string)
    ensures var w := WrapperContent(m);
      |w| >= |m| + 2 && w[|w| - |m| - 2..|w| - 2] == m && w[|w| - 2..] == ">\n"
  {
    var w := WrapperContent(m);
    assert w == WrapperHead + m + ">\n";
    assert w[|w| - |m| - 2..|w| - 2] == m;
  }

  /**
   * In multi-configuration mode the output lies below the include directory
   * at the path the wrapper includes, and the wrapper sits at the public
   * path; otherwise the output is the public path.
   */
  lemma JobPaths(info: InfoValues, rccExecutableTime: Time, appendSuffix: (string, string) -> string)
    ensures var job := JobOf(info, rccExecutableTime, appendSuffix);
      && job.rccFilePublic == info.buildDir + "/" + info.checksum + "/" + info.outputName
      && (!info.multiConfig ==> job.rccFileOutput == job.rccFilePublic)
      && (info.multiConfig ==>
            && job.rccFileOutput == info.includeDir + "/" + job.multiConfigOutput
            && job.multiConfigOutput[..|info.checksum| + 1] == info.checksum + "/")
      && job.wrapperContent == WrapperContent(job.multiConfigOutput)
  {
    var suffixed := appendSuffix(info.outputName, "_CMAKE_");
    assert MultiConfigOutput(info.checksum, suffixed) == (info.checksum + "/") + suffixed;
  }

  /* ---------------- the settings file ---------------- */

  /** What SettingsFileWrite stores. */
  function SettingsContent(hash: string): string
  {
    "rcc:" + hash + "\n"
  }

  /** SettingsFileRead: the settings changed when the file cannot be read or holds another hash. */
  function SettingsChanged(content: Option<string>, hash: string): bool
  {
    content.None? || hash != SettingsFind(content.value, "rcc")
  }

  /**
   * A settings file written for a hash reads back as unchanged for that
   * hash and as changed for any other; a cleared file reads as changed, so
   * an interrupted build is redone in full.
   */
  lemma SettingsStable(hash: string, other: string)
    requires hash != "" && '\n' !in hash
    ensures !SettingsChanged(Some(SettingsContent(hash)), hash)
    ensures other != hash ==> SettingsChanged(Some(SettingsContent(hash)), other)
    ensures SettingsChanged(Some(""), hash)
  {
    SettingsFindRoundTrip("rcc", hash);
    assert SettingsContent(hash) == "rcc" + ":" + hash + "\n";
    assert FindSub("", "rcc:").None?;
  }

  /* ---------------- the regeneration tests ---------------- */

  /**
   * TestQrcRccFiles: None when the qrc file is missing; otherwise whether the
   * output must be generated: it is missing, the settings changed, or it is
   * older than the qrc file or the rcc executable.
   */
  function QrcRccTest(job: Job, times: map<string, Time>, settingsChanged: bool): Option<bool>
  {
    if job.qrcFile !in times then None
    else if job.rccFileOutput !in times then Some(true)
    else if settingsChanged then Some(true)
    else if times[job.rccFileOutput] < times[job.qrcFile] then Some(true)
    else if times[job.rccFileOutput] < job.rccExecutableTime then Some(true)
    else Some(false)
  }

  /** The output is current exactly when it exists and is no older than the qrc file and the executable. */
  lemma QrcRccTestIff(job: Job, times: map<string, Time>, settingsChanged: bool)
    ensures QrcRccTest(job, times, settingsChanged).None? <==> job.qrcFile !in times
    ensures QrcRccTest(job, times, settingsChanged) == Some(false) <==>
      && job.qrcFile in times && job.rccFileOutput in times && !settingsChanged
      && times[job.qrcFile] <= times[job.rccFileOutput]
      && job.rccExecutableTime <= times[job.rccFileOutput]
  {
  }

  /**
   * TestResources' walk: None at the first missing resource, true at the
   * first resource newer than the output (the walk stops there), false when
   * every resource exists and none is newer.
   */
  function ResourcesTest(resources: seq<string>, times: map<string, Time>, outputTime: Time): Option<bool>
  {
    if resources == [] then Some(false)
    else if resources[0] !in times then None
    else if outputTime < times[resources[0]] then Some(true)
    else ResourcesTest(resources[1..], times, outputTime)
  }

  /** Every resource exists and none is newer than the output. */
  ghost predicate AllOlder(resources: seq<string>, times: map<string, Time>, outputTime: Time)
  {
    forall i :: 0 <= i < |resources| ==> resources[i] in times && times[resources[i]] <= outputTime
  }

  /**
   * The walk's verdicts: false exactly when every resource is present and
   * not newer; true only at a resource newer than the output after present,
   * older ones; an error only at a missing resource after present, older
   * ones, so resources after the first newer one are never looked at.
   */
  lemma {:induction false} ResourcesTestVerdict(resources: seq<string>, times: map<string, Time>, outputTime: Time)
    ensures ResourcesTest(resources, times, outputTime) == Some(false) <==> AllOlder(resources, times, outputTime)
    ensures ResourcesTest(resources, times, outputTime) == Some(true) ==>
      exists i :: 0 <= i < |resources| && AllOlder(resources[..i], times, outputTime)
                  && resources[i] in times && outputTime < times[resources[i]]
    ensures ResourcesTest(resources, times, outputTime).None? ==>
      exists i :: 0 <= i < |resources| && AllOlder(resources[..i], times, outputTime) && resources[i] !in times
  {
    if resources != [] {
      var rest := resources[1..];
      ResourcesTestVerdict(rest, times, outputTime);
      assert resources[..0] == [];
      if AllOlder(rest, times, outputTime) && resources[0] in times && times[resources[0]] <= outputTime {
        forall i | 0 <= i < |resources|
          ensures resources[i] in times && times[resources[i]] <= outputTime
        {
          if i > 0 { assert resources[i] == rest[i - 1]; }
        }
      }
      if AllOlder(resources, times, outputTime) {
        forall i | 0 <= i < |rest| ensures rest[i] in times && times[rest[i]] <= outputTime {
          assert rest[i] == resources[i + 1];
        }
      }
      var r := ResourcesTest(resources, times, outputTime);
      if resources[0] in times && outputTime >= times[resources[0]] && (r == Some(true) || r.None?) {
        var j :| 0 <= j < |rest| && AllOlder(rest[..j], times, outputTime)
                 && (if r.None? then rest[j] !in times else rest[j] in times && outputTime < times[rest[j]]);
        assert resources[j + 1] == rest[j];
        var before := resources[..j + 1];
        forall k | 0 <= k < |before| ensures before[k] in times && times[before[k]] <= outputTime {
          if k > 0 { assert before[k] == rest[..j][k - 1]; }
        }
      }
    }
  }

  /* ---------------- effects of a run ---------------- */

  /** What a run does to the file system and the lock, in order. */
  datatype Effect =
    | TouchSettings
    | TouchLock
    | Lock
    | ClearSettings
    | MakeOutputDirectory
    | RunRcc
    | RemoveOutput
    | TouchOutput
    | WriteWrapper(content: string)
    | TouchWrapper
    | WriteSettings(content: string)
    | RemoveSettings
    | Release

  /** What a run observes: the settings hash, file times and the success of each file operation. */
  datatype Host = Host(
    settingsHash: string,
    settingsExists: bool,
    settingsTouchOk: bool,
    lockExists: bool,
    lockTouchOk: bool,
    lockOk: bool,
    settingsContent: Option<string>,
    clearOk: bool,
    times: map<string, Time>,
    listed: Option<seq<string>>,
    parentDirOk: bool,
    rccOk: bool,
    infoTime: Time,
    touchOutputOk: bool,
    wrapperContent: Option<string>,
    wrapperWriteOk: bool,
    wrapperTouchOk: bool,
    settingsWriteOk: bool)

  /** A phase of a run: whether it succeeded and what it did. */
  datatype Phase = Phase(ok: bool, effects: seq<Effect>)

  /** SettingsFileRead, first half: make sure the settings and lock files exist, then lock. */
  function LockPhase(host: Host): Phase
  {
    if !host.settingsExists && !host.settingsTouchOk then Phase(false, [])
    else
      var touched := if host.settingsExists then [] else [TouchSettings];
      if !host.lockExists && !host.lockTouchOk then Phase(false, touched)
      else
        var lockTouched := if host.lockExists then [] else [TouchLock];
        if !host.lockOk then Phase(false, touched + lockTouched)
        else Phase(true, touched + lockTouched + [Lock])
  }

  /** SettingsFileRead, second half: clear a readable settings file whose hash changed. */
  function ClearPhase(host: Host, changed: bool): Phase
  {
    if host.settingsContent.Some? && changed then
      if host.clearOk then Phase(true, [ClearSettings]) else Phase(false, [])
    else Phase(true, [])
  }

  function ReadPhase(host: Host, changed: bool): Phase
  {
    var lock := LockPhase(host);
    if !lock.ok then lock
    else
      var clear := ClearPhase(host, changed);
      Phase(clear.ok, lock.effects + clear.effects)
  }

  /** The resources TestResources walks: the job's, or the listed ones when the job names none. */
  function Resources(job: Job, host: Host): Option<seq<string>>
  {
    if job.inputs != [] then Some(job.inputs) else host.listed
  }

  /**
   * Whether Process generates: None when a test fails, otherwise the
   * verdict of TestQrcRccFiles, then, if that says no, of TestResources.
   */
  function GenerateDecision(job: Job, host: Host, changed: bool): Option<bool>
  {
    match QrcRccTest(job, host.times, changed)
    case None => None
    case Some(generate) =>
      if generate then Some(true)
      else match Resources(job, host)
        case None => None
        case Some(resources) => ResourcesTest(resources, host.times, host.times[job.rccFileOutput])
  }

  /** GenerateRcc when generating, otherwise TestInfoFile. */
  function BuildPhase(job: Job, host: Host, generate: bool): Phase
    requires !generate ==> job.rccFileOutput in host.times
  {
    if generate then
      if !host.parentDirOk then Phase(false, [])
      else if host.rccOk then Phase(true, [MakeOutputDirectory, RunRcc])
      else Phase(false, [MakeOutputDirectory, RemoveOutput])
    else if host.times[job.rccFileOutput] < host.infoTime then
      if host.touchOutputOk then Phase(true, [TouchOutput]) else Phase(false, [])
    else Phase(true, [])
  }

  /** Whether BuildPhase changed the build file: it generated, or touched an output older than the info file. */
  function BuildFileChanged(job: Job, host: Host, generate: bool): bool
    requires !generate ==> job.rccFileOutput in host.times
  {
    if generate then host.parentDirOk && host.rccOk else host.times[job.rccFileOutput] < host.infoTime && host.touchOutputOk
  }

  /** What GenerateWrapper does to the wrapper file. */
  datatype WrapperAction = LeaveWrapper | WriteWrapperFile | TouchWrapperFile

  /**
   * GenerateWrapper's decision: only in multi-configuration mode; the
   * wrapper is written when its content differs (or it cannot be read), and
   * otherwise touched when the build file changed.
   */
  function WrapperDecision(multiConfig: bool, oldContent: Option<string>, content: string,
                           buildFileChanged: bool): WrapperAction
  {
    if !multiConfig then LeaveWrapper
    else if oldContent != Some(content) then WriteWrapperFile
    else if buildFileChanged then TouchWrapperFile
    else LeaveWrapper
  }

  /** The wrapper is rewritten exactly when its content is stale and touched only when it is current. */
  lemma WrapperDecisionIff(multiConfig: bool, oldContent: Option<string>, content: string, buildFileChanged: bool)
    ensures WrapperDecision(multiConfig, oldContent, content, buildFileChanged) == WriteWrapperFile <==>
      multiConfig && oldContent != Some(content)
    ensures WrapperDecision(multiConfig, oldContent, content, buildFileChanged) == TouchWrapperFile <==>
      multiConfig && oldContent == Some(content) && buildFileChanged
  {
  }

  function WrapperPhase(job: Job, host: Host, buildFileChanged: bool): Phase
  {
    var content := job.wrapperContent;
    match WrapperDecision(job.multiConfig, host.wrapperContent, content, buildFileChanged)
    case LeaveWrapper => Phase(true, [])
    case WriteWrapperFile =>
      if host.wrapperWriteOk then Phase(true, [WriteWrapper(content)]) else Phase(false, [])
    case TouchWrapperFile =>
      if host.wrapperTouchOk then Phase(true, [TouchWrapper]) else Phase(false, [])
  }

  /** SettingsFileWrite: write the hash only when the settings changed, then release the lock. */
  function WritePhase(host: Host, changed: bool): Phase
  {
    if changed then
      if host.settingsWriteOk then Phase(true, [WriteSettings(SettingsContent(host.settingsHash)), Release])
      else Phase(false, [RemoveSettings])
    else Phase(true, [Release])
  }

  /** The end of a run: the wrapper, then the settings file. */
  function FinishPhase(job: Job, host: Host, changed: bool, buildFileChanged: bool): Phase
  {
    var wrapper := WrapperPhase(job, host, buildFileChanged);
    if !wrapper.ok then wrapper
    else
      var write := WritePhase(host, changed);
      Phase(write.ok, wrapper.effects + write.effects)
  }

  /** A run once the decision is made: build, then finish. */
  function BuildAndFinish(job: Job, host: Host, changed: bool, generate: bool): Phase
    requires !generate ==> job.rccFileOutput in host.times
  {
    var build := BuildPhase(job, host, generate);
    if !build.ok then build
    else
      var finish := FinishPhase(job, host, changed, BuildFileChanged(job, host, generate));
      Phase(finish.ok, build.effects + finish.effects)
  }

  /** GenerateDecision's false verdict implies the output exists. */
  lemma GenerateDecisionOutput(job: Job, host: Host, changed: bool)
    ensures GenerateDecision(job, host, changed) == Some(false) ==> job.rccFileOutput in host.times
  {
  }

  /** SettingsFileRead's verdict on the settings of a run. */
  function Changed(host: Host): bool
  {
    SettingsChanged(host.settingsContent, host.settingsHash)
  }

  /** The resources listed do not matter once the decision is made. */
  lemma BuildAndFinishInputs(job: Job, inputs: seq<string>, host: Host, changed: bool, generate: bool)
    requires !generate ==> job.rccFileOutput in host.times
    ensures BuildAndFinish(job.(inputs := inputs), host, changed, generate) == BuildAndFinish(job, host, changed, generate)
  {
  }

  /** Process after reading the settings: decide, then build and finish; no decision is a failure. */
  function DecidedRun(job: Job, host: Host, changed: bool): Phase
  {
    match GenerateDecision(job, host, changed)
    case None => Phase(false, [])
    case Some(generate) =>
      GenerateDecisionOutput(job, host, changed);
      BuildAndFinish(job, host, changed, generate)
  }

  /** Process: the phases in order, stopping at the first that fails. */
  function ProcessRun(job: Job, host: Host): Phase
  {
    var changed := Changed(host);
    var read := ReadPhase(host, changed);
    if !read.ok then read
    else
      var rest := DecidedRun(job, host, changed);
      Phase(rest.ok, read.effects + rest.effects)
  }

  /** A successful finish releases the lock last and writes the current hash exactly when the settings changed. */
  lemma FinishReleasesAndWrites(job: Job, host: Host, changed: bool, buildFileChanged: bool)
    ensures var finish := FinishPhase(job, host, changed, buildFileChanged);
      finish.ok ==>
        && finish.effects[|finish.effects| - 1] == Release
        && (WriteSettings(SettingsContent(host.settingsHash)) in finish.effects <==> changed)
        && (forall c :: WriteSettings(c) in finish.effects ==> c == SettingsContent(host.settingsHash))
  {
    var wrapper := WrapperPhase(job, host, buildFileChanged);
    assert forall e :: e in wrapper.effects ==> !e.WriteSettings?;
  }

  /** The same, once the build phase succeeded. */
  lemma BuildReleasesAndWrites(job: Job, host: Host, changed: bool, generate: bool)
    requires !generate ==> job.rccFileOutput in host.times
    ensures var rest := BuildAndFinish(job, host, changed, generate);
      rest.ok ==>
        && rest.effects[|rest.effects| - 1] == Release
        && (WriteSettings(SettingsContent(host.settingsHash)) in rest.effects <==> changed)
        && (forall c :: WriteSettings(c) in rest.effects ==> c == SettingsContent(host.settingsHash))
  {
    var build := BuildPhase(job, host, generate);
    FinishReleasesAndWrites(job, host, changed, BuildFileChanged(job, host, generate));
    assert forall e :: e in build.effects ==> !e.WriteSettings?;
  }

  /** A successful run ends by releasing the lock. */
  lemma ProcessReleases(job: Job, host: Host)
    ensures var run := ProcessRun(job, host);
      run.ok ==> |run.effects| > 0 && run.effects[|run.effects| - 1] == Release
  {
    var changed := Changed(host);
    if ProcessRun(job, host).ok {
      var generate := GenerateDecision(job, host, changed).value;
      GenerateDecisionOutput(job, host, changed);
      BuildReleasesAndWrites(job, host, changed, generate);
    }
  }

  /** A successful run is the read phase followed by the build and finish of the decision taken. */
  lemma ProcessRunShape(job: Job, host: Host)
    requires ProcessRun(job, host).ok
    ensures ReadPhase(host, Changed(host)).ok && GenerateDecision(job, host, Changed(host)).Some?
    ensures var generate := GenerateDecision(job, host, Changed(host)).value;
      && (!generate ==> job.rccFileOutput in host.times)
      && ProcessRun(job, host).effects ==
         ReadPhase(host, Changed(host)).effects + BuildAndFinish(job, host, Changed(host), generate).effects
      && BuildAndFinish(job, host, Changed(host), generate).ok
  {
    GenerateDecisionOutput(job, host, Changed(host));
  }

  /** The settings the read phase issues: none are written. */
  lemma ReadWritesNoSettings(host: Host, changed: bool)
    ensures forall e :: e in ReadPhase(host, changed).effects ==> !e.WriteSettings?
  {
    assert forall e :: e in LockPhase(host).effects ==> !e.WriteSettings?;
  }

  /** Effects without a settings write in front do not change which settings are written. */
  lemma WritesAfter(a: seq<Effect>, b: seq<Effect>)
    requires forall e :: e in a ==> !e.WriteSettings?
    ensures forall c :: WriteSettings(c) in a + b <==> WriteSettings(c) in b
  {
  }

  /** A successful run writes the settings exactly when they changed, and always with the current hash. */
  lemma ProcessWritesSettings(job: Job, host: Host)
    ensures var run := ProcessRun(job, host);
      run.ok ==>
        && (WriteSettings(SettingsContent(host.settingsHash)) in run.effects <==> Changed(host))
        && (forall c :: WriteSettings(c) in run.effects ==> c == SettingsContent(host.settingsHash))
  {
    if ProcessRun(job, host).ok {
      var changed := Changed(host);
      ProcessRunShape(job, host);
      var generate := GenerateDecision(job, host, changed).value;
      BuildReleasesAndWrites(job, host, changed, generate);
      ReadWritesNoSettings(host, changed);
      WritesAfter(ReadPhase(host, changed).effects, BuildAndFinish(job, host, changed, generate).effects);
    }
  }

  /** The build phase either regenerates or touches the output, never both. */
  lemma BuildGeneratesOrTouches(job: Job, host: Host, changed: bool, generate: bool)
    requires !generate ==> job.rccFileOutput in host.times
    ensures var rest := BuildAndFinish(job, host, changed, generate);
      (RunRcc in rest.effects ==> generate && TouchOutput !in rest.effects)
      && (TouchOutput in rest.effects ==> !generate && RunRcc !in rest.effects)
  {
    var finish := FinishPhase(job, host, changed, BuildFileChanged(job, host, generate));
    var wrapper := WrapperPhase(job, host, BuildFileChanged(job, host, generate));
    assert RunRcc !in wrapper.effects && TouchOutput !in wrapper.effects;
    assert RunRcc !in WritePhase(host, changed).effects && TouchOutput !in WritePhase(host, changed).effects;
  }

  /** The output is either regenerated or touched in a run, never both, as the decision says. */
  lemma ProcessGeneratesOrTouches(job: Job, host: Host)
    ensures var run := ProcessRun(job, host);
      var decision := GenerateDecision(job, host, Changed(host));
      (RunRcc in run.effects ==> decision == Some(true) && TouchOutput !in run.effects)
      && (TouchOutput in run.effects ==> decision == Some(false) && RunRcc !in run.effects)
  {
    var changed := Changed(host);
    var read := ReadPhase(host, changed);
    assert RunRcc !in read.effects && TouchOutput !in read.effects by {
      assert RunRcc !in LockPhase(host).effects && TouchOutput !in LockPhase(host).effects;
      assert RunRcc !in ClearPhase(host, changed).effects && TouchOutput !in ClearPhase(host, changed).effects;
    }
    if read.ok && GenerateDecision(job, host, changed).Some? {
      var generate := GenerateDecision(job, host, changed).value;
      GenerateDecisionOutput(job, host, changed);
      BuildGeneratesOrTouches(job, host, changed, generate);
    }
  }

  /**
   * An up-to-date job does nothing but lock and unlock: with the settings
   * file current, an output that is no older than the qrc file, the
   * executable, every resource and the info file, and a current wrapper (or
   * a single configuration), the run touches and writes nothing.
   */
  lemma ProcessUpToDate(job: Job, host: Host)
    requires host.settingsExists && host.lockExists && host.lockOk
    requires host.settingsContent == Some(SettingsContent(host.settingsHash))
    requires host.settingsHash != "" && '\n' !in host.settingsHash
    requires job.qrcFile in host.times && job.rccFileOutput in host.times
    requires host.times[job.qrcFile] <= host.times[job.rccFileOutput]
    requires job.rccExecutableTime <= host.times[job.rccFileOutput]
    requires Resources(job, host).Some? && AllOlder(Resources(job, host).value, host.times, host.times[job.rccFileOutput])
    requires host.infoTime <= host.times[job.rccFileOutput]
    requires job.multiConfig ==> host.wrapperContent == Some(job.wrapperContent)
    ensures ProcessRun(job, host) == Phase(true, [Lock, Release])
  {
    SettingsStable(host.settingsHash, host.settingsHash);
    QrcRccTestIff(job, host.times, false);
    ResourcesTestVerdict(Resources(job, host).value, host.times, host.times[job.rccFileOutput]);
    assert GenerateDecision(job, host, false) == Some(false);
  }

  /* ---------------- the generator ---------------- */

  /** cmQtAutoRcc with the state Init and Process update. */
  class AutoRcc {
    var logger: Logger
    var job: Job
    var settingsString: string
    var settingsChanged: bool
    var buildFileChanged: bool
    var effects: seq<Effect>

    predicate Valid()
      reads this, logger
    {
      logger.Valid()
    }

    constructor(verbosity: nat)
      requires verbosity < UIntLimit
      ensures Valid() && fresh(logger) && effects == [] && !settingsChanged && !buildFileChanged
    {
      logger := new Logger(verbosity);
      job := Job(false, "", 0, "", "", [], "", "", "", "", "");
      settingsString := "";
      settingsChanged := false;
      buildFileChanged := false;
      effects := [];
    }

    /**
     * Init: raise the verbosity, validate the info values and derive the
     * paths. `rccExecutableTime` is the executable's time when it exists.
     */
    method Init(info: InfoValues, readOk: bool, rccExecutableTime: Option<Time>,
                appendSuffix: (string, string) -> string)
      returns (failure: Option<InitError>)
      requires Valid()
      modifies this, logger
      ensures Valid() && logger == old(logger)
      ensures failure == InitFailure(info, readOk, rccExecutableTime.Some?)
      ensures readOk ==> logger.verbosity == Raised(old(logger.verbosity), info.verbosity)
      ensures !readOk ==> logger.verbosity == old(logger.verbosity)
      ensures failure.None? ==> job == JobOf(info, rccExecutableTime.value, appendSuffix)
      ensures effects == old(effects)
    {
      if !readOk {
        return Some(InfoFileFailed);
      }
      logger.RaiseVerbosity(info.verbosity);
      failure := InitFailure(info, readOk, rccExecutableTime.Some?);
      if failure.None? {
        job := JobOf(info, rccExecutableTime.value, appendSuffix);
      }
    }

    /** SettingsFileRead with the hash of the current settings. */
    method SettingsFileRead(host: Host) returns (ok: bool)
      modifies this
      ensures ok == ReadPhase(host, Changed(host)).ok && effects == old(effects) + ReadPhase(host, Changed(host)).effects
      ensures settingsString == host.settingsHash
      ensures ok ==> settingsChanged == Changed(host)
      ensures job == old(job) && buildFileChanged == old(buildFileChanged)
    {
      settingsString := host.settingsHash;
      ok := LockFiles(host);
      if !ok {
        return;
      }
      ok := ReadOldSettings(host);
      AppendAssociates(old(effects), LockPhase(host).effects, ClearPhase(host, Changed(host)).effects);
    }

    /** Touch the settings and lock files when they are missing, then take the lock. */
    method LockFiles(host: Host) returns (ok: bool)
      modifies this
      ensures ok == LockPhase(host).ok && effects == old(effects) + LockPhase(host).effects
      ensures job == old(job) && buildFileChanged == old(buildFileChanged) && settingsString == old(settingsString)
    {
      ghost var touched: seq<Effect> := [];
      if !host.settingsExists {
        if !host.settingsTouchOk {
          return false;
        }
        effects := effects + [TouchSettings];
        touched := [TouchSettings];
      }
      ghost var lockTouched: seq<Effect> := [];
      if !host.lockExists {
        if !host.lockTouchOk {
          assert effects == old(effects) + touched;
          return false;
        }
        effects := effects + [TouchLock];
        lockTouched := [TouchLock];
      }
      assert effects == old(effects) + (touched + lockTouched);
      if !host.lockOk {
        return false;
      }
      effects := effects + [Lock];
      ok := true;
    }

    /** Read the old settings: changed when unreadable or holding another hash; a changed file is cleared. */
    method ReadOldSettings(host: Host) returns (ok: bool)
      requires settingsString == host.settingsHash
      modifies this
      ensures ok == ClearPhase(host, Changed(host)).ok && effects == old(effects) + ClearPhase(host, Changed(host)).effects
      ensures ok ==> settingsChanged == Changed(host)
      ensures job == old(job) && buildFileChanged == old(buildFileChanged) && settingsString == old(settingsString)
    {
      if host.settingsContent.Some? {
        settingsChanged := settingsString != SettingsFind(host.settingsContent.value, "rcc");
        if settingsChanged {
          if !host.clearOk {
            return false;
          }
          effects := effects + [ClearSettings];
        }
      } else {
        settingsChanged := true;
      }
      ok := true;
    }

    /** TestQrcRccFiles: sets `generate` when the output must be regenerated, never clears it. */
    method TestQrcRccFiles(host: Host, generate: bool) returns (ok: bool, generateOut: bool)
      ensures ok == QrcRccTest(job, host.times, settingsChanged).Some?
      ensures ok ==> generateOut == (generate || QrcRccTest(job, host.times, settingsChanged).value)
      ensures generate ==> generateOut
    {
      generateOut := generate;
      if job.qrcFile !in host.times {
        return false, generateOut;
      }
      ok := true;
      if job.rccFileOutput !in host.times {
        generateOut := true;
      } else if settingsChanged {
        generateOut := true;
      } else if host.times[job.rccFileOutput] < host.times[job.qrcFile] {
        generateOut := true;
      } else if host.times[job.rccFileOutput] < job.rccExecutableTime {
        generateOut := true;
      }
    }

    /**
     * TestResources: list the resources when the job names none, then walk
     * them until one is missing or newer than the output.
     */
    method TestResources(host: Host, generate: bool) returns (ok: bool, generateOut: bool)
      requires job.rccFileOutput in host.times
      modifies this
      ensures var resources := Resources(old(job), host);
        && (resources.None? ==> !ok && job == old(job))
        && (resources.Some? ==>
              && job == old(job).(inputs := resources.value)
              && ok == ResourcesTest(resources.value, host.times, host.times[job.rccFileOutput]).Some?
              && (ok ==> generateOut == (generate || ResourcesTest(resources.value, host.times, host.times[job.rccFileOutput]).value)))
      ensures settingsChanged == old(settingsChanged) && buildFileChanged == old(buildFileChanged)
      ensures settingsString == old(settingsString) && effects == old(effects)
    {
      generateOut := generate;
      if job.inputs == [] {
        if host.listed.None? {
          return false, generateOut;
        }
        job := job.(inputs := host.listed.value);
      }
      var outputTime := host.times[job.rccFileOutput];
      var i := 0;
      while i < |job.inputs|
        invariant i <= |job.inputs|
        invariant ResourcesTest(job.inputs[i..], host.times, outputTime) == ResourcesTest(job.inputs, host.times, outputTime)
        invariant generateOut == generate
      {
        var resFile := job.inputs[i];
        assert job.inputs[i..][1..] == job.inputs[i + 1..];
        if resFile !in host.times {
          return false, generateOut;
        }
        if outputTime < host.times[resFile] {
          generateOut := true;
          break;
        }
        i := i + 1;
      }
      ok := true;
    }

    /** TestInfoFile: touch the output when the info file is newer. */
    method TestInfoFile(host: Host) returns (ok: bool)
      requires job.rccFileOutput in host.times
      modifies this
      ensures job == old(job) && settingsChanged == old(settingsChanged) && settingsString == old(settingsString)
      ensures ok == BuildPhase(job, host, false).ok
      ensures effects == old(effects) + BuildPhase(job, host, false).effects
      ensures buildFileChanged == (BuildFileChanged(job, host, false) || old(buildFileChanged))
    {
      ok := true;
      if host.times[job.rccFileOutput] < host.infoTime {
        if !host.touchOutputOk {
          return false;
        }
        effects := effects + [TouchOutput];
        buildFileChanged := true;
      }
    }

    /**
     * GenerateRcc, reduced to its outcome: it fails without effect when the
     * output's parent directory cannot be made, and removes the output when
     * rcc fails.
     */
    method GenerateRcc(host: Host) returns (ok: bool)
      modifies this
      ensures job == old(job) && settingsChanged == old(settingsChanged) && settingsString == old(settingsString)
      ensures ok == BuildPhase(job, host, true).ok && effects == old(effects) + BuildPhase(job, host, true).effects
      ensures buildFileChanged == (BuildFileChanged(job, host, true) || old(buildFileChanged))
    {
      if !host.parentDirOk {
        return false;
      }
      effects := effects + [MakeOutputDirectory];
      if !host.rccOk {
        effects := effects + [RemoveOutput];
        return false;
      }
      effects := effects + [RunRcc];
      buildFileChanged := true;
      ok := true;
    }

    /** GenerateWrapper: in multi-configuration mode, rewrite a stale wrapper or touch a current one. */
    method GenerateWrapper(host: Host) returns (ok: bool)
      modifies this
      ensures job == old(job) && settingsChanged == old(settingsChanged) && settingsString == old(settingsString)
      ensures buildFileChanged == old(buildFileChanged)
      ensures ok == WrapperPhase(job, host, buildFileChanged).ok
      ensures effects == old(effects) + WrapperPhase(job, host, buildFileChanged).effects
    {
      ok := true;
      if job.multiConfig {
        var content := job.wrapperContent;
        var fileDiffers := true;
        if host.wrapperContent.Some? {
          fileDiffers := host.wrapperContent.value != content;
        }
        if fileDiffers {
          assert WrapperDecision(true, host.wrapperContent, content, buildFileChanged) == WriteWrapperFile;
          if !host.wrapperWriteOk {
            return false;
          }
          effects := effects + [WriteWrapper(content)];
        } else if buildFileChanged {
          if !host.wrapperTouchOk {
            return false;
          }
          effects := effects + [TouchWrapper];
        }
      }
    }

    /** SettingsFileWrite: write the hash when the settings changed, then release the lock. */
    method SettingsFileWrite(host: Host) returns (ok: bool)
      requires settingsString == host.settingsHash
      modifies this
      ensures ok == WritePhase(host, settingsChanged).ok && effects == old(effects) + WritePhase(host, settingsChanged).effects
      ensures job == old(job) && buildFileChanged == old(buildFileChanged) && settingsChanged == old(settingsChanged)
    {
      if settingsChanged {
        var content := "rcc:" + settingsString + "\n";
        if !host.settingsWriteOk {
          effects := effects + [RemoveSettings];
          return false;
        }
        effects := effects + [WriteSettings(content)];
      }
      effects := effects + [Release];
      ok := true;
    }

    /** The end of Process: the wrapper, then the settings file. */
    method Finish(host: Host) returns (ok: bool)
      requires settingsString == host.settingsHash
      modifies this
      ensures ok == FinishPhase(job, host, settingsChanged, old(buildFileChanged)).ok
      ensures effects == old(effects) + FinishPhase(job, host, settingsChanged, old(buildFileChanged)).effects
      ensures job == old(job) && settingsChanged == old(settingsChanged)
    {
      ghost var effects0 := effects;
      ok := GenerateWrapper(host);
      if !ok {
        return;
      }
      ghost var wrapper := WrapperPhase(job, host, buildFileChanged);
      ok := SettingsFileWrite(host);
      AppendAssociates(effects0, wrapper.effects, WritePhase(host, settingsChanged).effects);
    }

    /** Process once the decision is made: generate or test the info file, then finish. */
    method BuildAndFinishRun(host: Host, generate: bool) returns (ok: bool)
      requires !generate ==> job.rccFileOutput in host.times
      requires !buildFileChanged
      requires settingsString == host.settingsHash
      modifies this
      ensures ok == BuildAndFinish(old(job), host, old(settingsChanged), generate).ok
      ensures effects == old(effects) + BuildAndFinish(old(job), host, old(settingsChanged), generate).effects
    {
      ghost var effects0 := effects;
      if generate {
        ok := GenerateRcc(host);
      } else {
        ok := TestInfoFile(host);
      }
      if !ok {
        return;
      }
      ghost var build := BuildPhase(job, host, generate);
      ghost var changedBuild := buildFileChanged;
      ok := Finish(host);
      AppendAssociates(effects0, build.effects, FinishPhase(job, host, settingsChanged, changedBuild).effects);
    }

    /** Process's tests: TestQrcRccFiles, then TestResources unless already generating. */
    method Decide(host: Host) returns (ok: bool, generate: bool)
      modifies this
      ensures ok == GenerateDecision(old(job), host, settingsChanged).Some?
      ensures ok ==> generate == GenerateDecision(old(job), host, settingsChanged).value
      ensures ok && !generate ==> job.rccFileOutput in host.times
      ensures job == old(job).(inputs := job.inputs)
      ensures settingsChanged == old(settingsChanged) && buildFileChanged == old(buildFileChanged)
      ensures settingsString == old(settingsString) && effects == old(effects)
    {
      generate := false;
      ok, generate := TestQrcRccFiles(host, generate);
      if !ok {
        return;
      }
      if !generate {
        GenerateDecisionOutput(job, host, settingsChanged);
        ok, generate := TestResources(host, generate);
      }
    }

    /** Process once the settings are read: the tests, then the build and the finish. */
    method DecideAndRun(host: Host) returns (ok: bool)
      requires !buildFileChanged && settingsString == host.settingsHash
      modifies this
      ensures ok == DecidedRun(old(job), host, old(settingsChanged)).ok
      ensures effects == old(effects) + DecidedRun(old(job), host, old(settingsChanged)).effects
    {
      ghost var job0 := job;
      var generate;
      ok, generate := Decide(host);
      if !ok {
        return;
      }
      BuildAndFinishInputs(job0, job.inputs, host, settingsChanged, generate);
      ok := BuildAndFinishRun(host, generate);
    }

    /** Process: the run ProcessRun describes. */
    method Process(host: Host) returns (ok: bool)
      requires !buildFileChanged
      modifies this
      ensures var run := ProcessRun(old(job), host); ok == run.ok && effects == old(effects) + run.effects
    {
      ghost var job0, effects0 := job, effects;
      ok := SettingsFileRead(host);
      if ok {
        ok := DecideAndRun(host);
        AppendAssociates(effects0, ReadPhase(host, Changed(host)).effects, DecidedRun(job0, host, Changed(host)).effects);
      }
    }
  }
}
