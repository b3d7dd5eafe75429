// cmQtAutoGenInitializer::InitScanFiles, "Process qrc files": which qrc
// names are unique, the files each qrc's rcc run uses, and the "-name"
// value passed to rcc.

module QtInitQrc {
  import opened Text

  /** A qrc file to process and the names computed for it. */
  datatype Qrc = Qrc(
    qrcFile: string,
    qrcName: string,
    unique: bool,
    pathChecksum: string,
    rccFile: string,
    lockFile: string,
    infoFile: string,
    settingsFile: string,
    configSettingsFile: map<string, string>)

  /** No other qrc has the same name. */
  predicate NameUnique(qrcs: seq<Qrc>, i: int)
    requires 0 <= i < |qrcs|
  {
    forall j :: 0 <= j < |qrcs| && j != i ==> qrcs[j].qrcName != qrcs[i].qrcName
  }

  /** "Check if file name is unique": each qrc is unique exactly when no other one has its name. */
  method MarkUnique(qrcs: array<Qrc>)
    modifies qrcs
    ensures forall i :: 0 <= i < qrcs.Length ==>
      qrcs[i] == old(qrcs[i]).(unique := NameUnique(old(qrcs[..]), i))
  {
    ghost var before := qrcs[..];
    var i := 0;
    while i < qrcs.Length
      invariant 0 <= i <= qrcs.Length
      invariant forall k :: 0 <= k < i ==> qrcs[k] == before[k].(unique := NameUnique(before, k))
      invariant forall k :: i <= k < qrcs.Length ==> qrcs[k] == before[k]
    {
      var unique := IsUnique(qrcs, i);
      qrcs[i] := qrcs[i].(unique := unique);
      i := i + 1;
    }
  }

  /** The inner loop of the check: scans for another qrc of the same name. */
  method IsUnique(qrcs: array<Qrc>, i: nat) returns (unique: bool)
    requires i < qrcs.Length
    ensures unique == NameUnique(qrcs[..], i)
  {
    unique := true;
    var j := 0;
    while j < qrcs.Length
      invariant 0 <= j <= qrcs.Length
      invariant forall k :: 0 <= k < j && k != i ==> qrcs[k].qrcName != qrcs[i].qrcName
    {
      if j != i && qrcs[j].qrcName == qrcs[i].qrcName {
        unique := false;
        break;
      }
      j := j + 1;
    }
  }

  /** The rcc output: the build directory, the path checksum, then qrc_<name>.cpp. */
  function RccFile(build: string, checksum: string, name: string): string
  {
    build + "/" + checksum + "/qrc_" + name + ".cpp"
  }

  /** The base of the lock, info and settings files: the checksum is appended only to a name that is not unique. */
  function FileBase(info: string, name: string, checksum: string, unique: bool): string
  {
    info + "/RCC" + name + (if unique then "" else checksum)
  }

  /** The qrc with its checksum and file names set; `appendSuffix` is AppendFilenameSuffix. */
  function WithFileNames(q: Qrc, build: string, info: string, checksum: string,
                         multiConfig: bool, configs: seq<string>,
                         appendSuffix: (string, string) -> string): Qrc
  {
    var base := FileBase(info, q.qrcName, checksum, q.unique);
    var settings := base + "Settings.txt";
    q.(pathChecksum := checksum,
       rccFile := RccFile(build, checksum, q.qrcName),
       lockFile := base + ".lock",
       infoFile := base + "Info.cmake",
       settingsFile := settings,
       configSettingsFile :=
         if multiConfig
         then q.configSettingsFile + map cfg | cfg in Elems(configs) :: appendSuffix(settings, "_" + cfg)
         else q.configSettingsFile)
  }

  /** The per-configuration settings files of `configs` added to `initial`. */
  function ConfigFiles(initial: map<string, string>, settingsFile: string, configs: seq<string>,
                       appendSuffix: (string, string) -> string): map<string, string>
  {
    initial + map cfg | cfg in Elems(configs) :: appendSuffix(settingsFile, "_" + cfg)
  }

  /** Adding one more configuration adds its settings file. */
  lemma ConfigFilesStep(initial: map<string, string>, settingsFile: string, configs: seq<string>,
                        appendSuffix: (string, string) -> string, c: nat)
    requires c < |configs|
    ensures ConfigFiles(initial, settingsFile, configs[..c], appendSuffix)[configs[c] := appendSuffix(settingsFile, "_" + configs[c])]
         == ConfigFiles(initial, settingsFile, configs[..c + 1], appendSuffix)
  {
    assert Elems(configs[..c + 1]) == Elems(configs[..c]) + {configs[c]} by {
      assert configs[..c + 1] == configs[..c] + [configs[c]];
      ElemsConcat(configs[..c], [configs[c]]);
    }
  }

  /** The per-configuration settings files: the settings file with "_" and the configuration appended. */
  method ConfigSettingsFiles(initial: map<string, string>, settingsFile: string, configs: seq<string>,
                             appendSuffix: (string, string) -> string)
    returns (files: map<string, string>)
    ensures files == initial + map cfg | cfg in Elems(configs) :: appendSuffix(settingsFile, "_" + cfg)
  {
    files := initial;
    var c := 0;
    assert Elems(configs[..0]) == {};
    while c < |configs|
      invariant c <= |configs|
      invariant files == ConfigFiles(initial, settingsFile, configs[..c], appendSuffix)
    {
      ConfigFilesStep(initial, settingsFile, configs, appendSuffix, c);
      files := files[configs[c] := appendSuffix(settingsFile, "_" + configs[c])];
      c := c + 1;
    }
    assert configs[..c] == configs;
  }

  /** The checksum and file names of one qrc. */
  method NameFiles(qrc: Qrc, build: string, info: string, checksum: string, multiConfig: bool,
                   configs: seq<string>, appendSuffix: (string, string) -> string)
    returns (named: Qrc)
    ensures named == WithFileNames(qrc, build, info, checksum, multiConfig, configs, appendSuffix)
  {
    var base := info + "/RCC" + qrc.qrcName + (if qrc.unique then "" else checksum);
    var settingsFile := base + "Settings.txt";
    var configFiles := qrc.configSettingsFile;
    if multiConfig {
      configFiles := ConfigSettingsFiles(configFiles, settingsFile, configs, appendSuffix);
    }
    named := qrc.(pathChecksum := checksum,
                  rccFile := build + "/" + checksum + "/qrc_" + qrc.qrcName + ".cpp",
                  lockFile := base + ".lock",
                  infoFile := base + "Info.cmake",
                  settingsFile := settingsFile,
                  configSettingsFile := configFiles);
  }

  /** "Path checksum and file names": `checksumOf` is cmFilePathChecksum::getPart. */
  method SetFileNames(qrcs: array<Qrc>, build: string, info: string, multiConfig: bool, configs: seq<string>,
                      checksumOf: string -> string, appendSuffix: (string, string) -> string)
    modifies qrcs
    ensures forall i :: 0 <= i < qrcs.Length ==>
      qrcs[i] == WithFileNames(old(qrcs[i]), build, info, checksumOf(old(qrcs[i]).qrcFile),
                               multiConfig, configs, appendSuffix)
  {
    var i := 0;
    while i < qrcs.Length
      invariant 0 <= i <= qrcs.Length
      invariant forall k :: 0 <= k < i ==>
        qrcs[k] == WithFileNames(old(qrcs[k]), build, info, checksumOf(old(qrcs[k]).qrcFile),
                                 multiConfig, configs, appendSuffix)
      invariant forall k :: i <= k < qrcs.Length ==> qrcs[k] == old(qrcs[k])
    {
      var named := NameFiles(qrcs[i], build, info, checksumOf(qrcs[i].qrcFile), multiConfig, configs, appendSuffix);
      qrcs[i] := named;
      i := i + 1;
    }
  }

  lemma SplitEqual(a1: string, b1: string, a2: string, b2: string)
    requires |a1| == |a2| && a1 + b1 == a2 + b2
    ensures a1 == a2 && b1 == b2
  {
    assert a1 == (a1 + b1)[..|a1|];
    assert b1 == (a1 + b1)[|a1|..];
  }

  lemma SuffixEqual(a1: string, a2: string, s: string)
    requires a1 + s == a2 + s
    ensures a1 == a2
  {
    assert |a1| == |a2|;
    SplitEqual(a1, s, a2, s);
  }

  /** Qrcs with different checksums or names get different rcc files, for checksums of one length. */
  lemma RccFilesDistinct(build: string, c1: string, n1: string, c2: string, n2: string)
    requires |c1| == |c2| && (c1 != c2 || n1 != n2)
    ensures RccFile(build, c1, n1) != RccFile(build, c2, n2)
  {
    if RccFile(build, c1, n1) == RccFile(build, c2, n2) {
      var p := build + "/";
      assert RccFile(build, c1, n1) == p + c1 + ("/qrc_" + n1 + ".cpp");
      assert RccFile(build, c2, n2) == p + c2 + ("/qrc_" + n2 + ".cpp");
      SplitEqual(p + c1, "/qrc_" + n1 + ".cpp", p + c2, "/qrc_" + n2 + ".cpp");
      SplitEqual(p, c1, p, c2);
      assert "/qrc_" + n1 + ".cpp" == "/qrc_" + (n1 + ".cpp");
      assert "/qrc_" + n2 + ".cpp" == "/qrc_" + (n2 + ".cpp");
      SplitEqual("/qrc_", n1 + ".cpp", "/qrc_", n2 + ".cpp");
      SuffixEqual(n1, n2, ".cpp");
    }
  }

  /**
   * Two qrcs that are both unique, or both not unique with checksums of one
   * length, get different lock, info and settings files when their names
   * (or, when not unique, their checksums) differ.
   */
  lemma FileBasesDistinct(info: string, n1: string, c1: string, n2: string, c2: string, unique: bool)
    requires unique ==> n1 != n2
    requires !unique ==> |c1| == |c2| && (n1 != n2 || c1 != c2)
    ensures var b1, b2 := FileBase(info, n1, c1, unique), FileBase(info, n2, c2, unique);
      && b1 != b2
      && b1 + ".lock" != b2 + ".lock"
      && b1 + "Info.cmake" != b2 + "Info.cmake"
      && b1 + "Settings.txt" != b2 + "Settings.txt"
  {
    var p := info + "/RCC";
    var b1, b2 := FileBase(info, n1, c1, unique), FileBase(info, n2, c2, unique);
    if b1 == b2 {
      if unique {
        assert b1 == p + n1 && b2 == p + n2;
        SplitEqual(p, n1, p, n2);
      } else {
        assert b1 == p + (n1 + c1) && b2 == p + (n2 + c2);
        SplitEqual(p, n1 + c1, p, n2 + c2);
        SuffixEqual(n1, n2, c1);
        assert |n1| == |n2|;
        SplitEqual(n1, c1, n2, c2);
      }
    }
    forall s: string | s in {".lock", "Info.cmake", "Settings.txt"}
      ensures b1 + s != b2 + s
    {
      if b1 + s == b2 + s {
        SuffixEqual(b1, b2, s);
      }
    }
  }

  /** A unique name can still meet a non-unique name followed by its checksum. */
  lemma FileBasesMayMeet(info: string)
    ensures FileBase(info, "resAB12", "CD34", true) == FileBase(info, "res", "AB12", false)
  {
  }

  /** The "-name" value: the qrc name with '-' turned into '_', then '_' and the checksum when not unique. */
  function RccName(name: string, checksum: string, unique: bool): string
  {
    MapChar(name, '-', "_") + (if unique then "" else "_" + checksum)
  }

  /** The option pair merged into the rcc options. */
  function NameOption(q: Qrc): seq<string>
  {
    ["-name", RccName(q.qrcName, q.pathChecksum, q.unique)]
  }

  lemma {:induction false} MapCharSingle(s: string, c: char, rep: char)
    ensures var r := MapChar(s, c, [rep]);
      |r| == |s| && forall i :: 0 <= i < |s| ==> r[i] == if s[i] == c then rep else s[i]
  {
    if s != [] {
      MapCharSingle(s[1..], c, rep);
      var r := MapChar(s, c, [rep]);
      assert r == (if s[0] == c then [rep] else [s[0]]) + MapChar(s[1..], c, [rep]);
    }
  }

  /**
   * The name keeps every character but '-', which becomes '_'; a non-unique
   * qrc's name then carries '_' and its checksum; the value holds no '-'
   * unless the checksum does.
   */
  lemma RccNameSpec(name: string, checksum: string, unique: bool)
    ensures var r := RccName(name, checksum, unique);
      && |r| == |name| + (if unique then 0 else 1 + |checksum|)
      && (forall i :: 0 <= i < |name| ==> r[i] == if name[i] == '-' then '_' else name[i])
      && (!unique ==> r[|name|..] == "_" + checksum)
      && ('-' !in checksum ==> '-' !in r)
  {
    MapCharSingle(name, '-', '_');
    MapCharRemoves(name, '-', "_");
    var r := RccName(name, checksum, unique);
    var m := MapChar(name, '-', "_");
    assert r[..|name|] == m;
    if !unique {
      assert r[|name|..] == "_" + checksum;
    }
  }

  /** The option is always "-name" followed by the value. */
  lemma NameOptionShape(q: Qrc)
    ensures |NameOption(q)| == 2 && NameOption(q)[0] == "-name"
    ensures q.unique && '-' !in q.qrcName ==> NameOption(q)[1] == q.qrcName
  {
    if q.unique && '-' !in q.qrcName {
      assert MapChar(q.qrcName, '-', "_") == q.qrcName;
    }
  }
}
