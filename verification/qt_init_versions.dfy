// cmQtAutoGenInitializer: the Qt versions known from the Qt6Core, Qt5Core
// and QT_VERSION variables and directory properties, and the version a
// target gets.

module QtInitVersions {
  import opened Text
  import opened QtAutoGenerator

  /** cmQtAutoGen::IntegerVersion; the default is 0.0. */
  datatype IntegerVersion = IntegerVersion(major: nat, minor: nat)

  const NoVersion := IntegerVersion(0, 0)

  /** CharPtrToUInt: a missing or non-numeric value is 0; a number is cast to unsigned int. */
  function CharPtrToUInt(input: Option<string>): (r: nat)
    ensures r < UIntLimit
  {
    match input
    case None => 0
    case Some(s) =>
      match StrToULong(s)
      case None => 0
      case Some(v) => v % UIntLimit
  }

  /** A number that fits an unsigned int reads back; larger ones wrap modulo 2^32. */
  lemma CharPtrToUIntDecimal(n: nat)
    requires n < ULongLimit
    ensures CharPtrToUInt(Some(Decimal(n))) == n % UIntLimit
    ensures n < UIntLimit ==> CharPtrToUInt(Some(Decimal(n))) == n
  {
    StrToULongDecimal(n);
  }

  /** Missing and non-numeric values read as 0. */
  lemma CharPtrToUIntZero(s: string)
    requires s == "" || !('0' <= s[0] <= '9')
    ensures CharPtrToUInt(None) == 0 && CharPtrToUInt(Some(s)) == 0
  {
  }

  /** The (major, minor) variable names, most recent Qt first. */
  const VersionKeys: seq<(string, string)> := [
    ("Qt6Core_VERSION_MAJOR", "Qt6Core_VERSION_MINOR"),
    ("Qt5Core_VERSION_MAJOR", "Qt5Core_VERSION_MINOR"),
    ("QT_VERSION_MAJOR", "QT_VERSION_MINOR")
  ]

  function Lookup(values: map<string, string>, key: string): Option<string>
  {
    if key in values then Some(values[key]) else None
  }

  /** The version one key pair names, 0.0 for missing values. */
  function VersionOf(values: map<string, string>, keys: (string, string)): IntegerVersion
  {
    IntegerVersion(CharPtrToUInt(Lookup(values, keys.0)), CharPtrToUInt(Lookup(values, keys.1)))
  }

  /** The versions the key pairs name, in order, without those of major 0. */
  function VersionsFrom(values: map<string, string>, keys: seq<(string, string)>): seq<IntegerVersion>
  {
    if keys == [] then []
    else
      var v := VersionOf(values, keys[|keys| - 1]);
      VersionsFrom(values, keys[..|keys| - 1]) + (if v.major != 0 then [v] else [])
  }

  /** The known versions: from the variables first, then from the directory properties. */
  function KnownVersions(definitions: map<string, string>, properties: map<string, string>): seq<IntegerVersion>
  {
    VersionsFrom(definitions, VersionKeys) + VersionsFrom(properties, VersionKeys)
  }

  /** addVersion: a version is kept unless its major is 0. */
  method AddVersion(result: seq<IntegerVersion>, major: Option<string>, minor: Option<string>)
    returns (r: seq<IntegerVersion>)
    ensures var v := IntegerVersion(CharPtrToUInt(major), CharPtrToUInt(minor));
      r == result + (if v.major != 0 then [v] else [])
  {
    var ver := IntegerVersion(CharPtrToUInt(major), CharPtrToUInt(minor));
    r := result;
    if ver.major != 0 {
      r := r + [ver];
    }
  }

  /** One pass over the key pairs, adding the versions the values name. */
  method AddVersions(result: seq<IntegerVersion>, values: map<string, string>) returns (r: seq<IntegerVersion>)
    ensures r == result + VersionsFrom(values, VersionKeys)
  {
    r := result;
    var i := 0;
    while i < |VersionKeys|
      invariant i <= |VersionKeys| && r == result + VersionsFrom(values, VersionKeys[..i])
    {
      var keys := VersionKeys[i];
      assert VersionKeys[..i + 1][..i] == VersionKeys[..i];
      r := AddVersion(r, Lookup(values, keys.0), Lookup(values, keys.1));
      i := i + 1;
    }
    assert VersionKeys[..i] == VersionKeys;
  }

  /** GetKnownQtVersions: `definitions` are the makefile's variables, `properties` its directory properties. */
  method GetKnownQtVersions(definitions: map<string, string>, properties: map<string, string>)
    returns (result: seq<IntegerVersion>)
    ensures result == KnownVersions(definitions, properties)
  {
    result := AddVersions([], definitions);
    result := AddVersions(result, properties);
  }

  /** Every known version has a major version, and each source gives at most one per key pair. */
  lemma {:induction false} VersionsFromSpec(values: map<string, string>, keys: seq<(string, string)>)
    ensures var r := VersionsFrom(values, keys);
      |r| <= |keys| && forall i :: 0 <= i < |r| ==> 0 < r[i].major < UIntLimit
  {
    if keys != [] {
      VersionsFromSpec(values, keys[..|keys| - 1]);
    }
  }

  /** The key pairs are read in order: the versions of consecutive key lists follow each other. */
  lemma {:induction false} VersionsFromConcat(values: map<string, string>, a: seq<(string, string)>, b: seq<(string, string)>)
    ensures VersionsFrom(values, a + b) == VersionsFrom(values, a) + VersionsFrom(values, b)
  {
    if b == [] {
      assert a + b == a;
    } else {
      assert (a + b)[..|a + b| - 1] == a + b[..|b| - 1];
      VersionsFromConcat(values, a, b[..|b| - 1]);
    }
  }

  /** The Qt6Core variables, when they name a version, give the first known version. */
  lemma KnownVersionsQt6First(definitions: map<string, string>, properties: map<string, string>)
    requires VersionOf(definitions, VersionKeys[0]).major != 0
    ensures var known := KnownVersions(definitions, properties);
      known != [] && known[0] == VersionOf(definitions, VersionKeys[0])
  {
    assert VersionKeys == [VersionKeys[0]] + VersionKeys[1..];
    VersionsFromConcat(definitions, [VersionKeys[0]], VersionKeys[1..]);
    assert [VersionKeys[0]][..0] == [];
  }

  /** Nothing set, nothing known. */
  lemma {:induction false} VersionsFromEmpty(keys: seq<(string, string)>)
    ensures VersionsFrom(map[], keys) == []
  {
    if keys != [] {
      VersionsFromEmpty(keys[..|keys| - 1]);
    }
  }

  /** With no version variables or properties set, no version is known. */
  lemma KnownVersionsNone()
    ensures KnownVersions(map[], map[]) == []
  {
    VersionsFromEmpty(VersionKeys);
  }

  /**
   * GetQtVersion: the requested major is QT_MAJOR_VERSION of the target
   * (`requestedMajor`); with none requested the first known version is
   * taken, otherwise the first known one of that major, and 0.0 when there
   * is none.
   */
  method GetQtVersion(requestedMajor: Option<string>, definitions: map<string, string>, properties: map<string, string>)
    returns (version: IntegerVersion, requested: nat)
    ensures requested == CharPtrToUInt(requestedMajor)
    ensures var known := KnownVersions(definitions, properties);
      && (known == [] ==> version == NoVersion)
      && (known != [] && requested == 0 ==> version == known[0])
      && (requested != 0 ==>
            || (version == NoVersion && forall i :: 0 <= i < |known| ==> known[i].major != requested)
            || (exists i :: 0 <= i < |known| && version == known[i] && version.major == requested
                  && forall j :: 0 <= j < i ==> known[j].major != requested))
  {
    version, requested := NoVersion, CharPtrToUInt(requestedMajor);
    var known := GetKnownQtVersions(definitions, properties);
    if |known| != 0 {
      if requested == 0 {
        version := known[0];
      } else {
        var i := 0;
        while i < |known|
          invariant i <= |known| && version == NoVersion
          invariant forall j :: 0 <= j < i ==> known[j].major != requested
        {
          if known[i].major == requested {
            version := known[i];
            break;
          }
          i := i + 1;
        }
      }
    }
  }

  /** A requested major that matches no known version leaves 0.0, whose major never matches a known one. */
  lemma NoVersionUnknown(definitions: map<string, string>, properties: map<string, string>)
    ensures NoVersion !in KnownVersions(definitions, properties)
  {
    VersionsFromSpec(definitions, VersionKeys);
    VersionsFromSpec(properties, VersionKeys);
  }
}
