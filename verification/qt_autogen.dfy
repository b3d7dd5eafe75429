// cmQtAutoGenerator: the logger's verbosity, its head lines, the settings
// file lookup and the shortened paths of messages.

module QtAutoGenerator {
  import opened Text

  /** cmStrToULong on decimal text: a non-empty digit string whose value fits an unsigned long. */
  function StrToULong(s: string): (r: Option<nat>)
    ensures r.Some? ==> r.value < ULongLimit && s != "" && AllDigits(s)
  {
    if s != "" && AllDigits(s) && ParseDecimal(s) < ULongLimit then Some(ParseDecimal(s)) else None
  }

  /** Every unsigned long reads back from its decimal form. */
  lemma StrToULongDecimal(n: nat)
    requires n < ULongLimit
    ensures StrToULong(Decimal(n)) == Some(n)
  {
    DecimalRoundTrip(n);
  }

  /**
   * Logger::RaiseVerbosity as written: the comparison is made on the
   * unsigned long, but the value is stored into an unsigned int, so a value
   * of 2^32 or more is stored modulo 2^32.
   */
  function RaisedAsWritten(current: nat, value: string): (r: nat)
    requires current < UIntLimit
    ensures r < UIntLimit
  {
    match StrToULong(value)
    case None => current
    case Some(v) => if current < v then v % UIntLimit else current
  }

  /** The truncation lowers the verbosity for every value 2^32 + k with k below the current level. */
  lemma RaiseAsWrittenLowers(current: nat, n: nat)
    requires current < UIntLimit && UIntLimit <= n < ULongLimit && n % UIntLimit < current
    ensures RaisedAsWritten(current, Decimal(n)) < current
  {
    StrToULongDecimal(n);
  }

  /** RaiseVerbosity as intended: a larger number raises the level, saturating at the unsigned int maximum. */
  function Raised(current: nat, value: string): (r: nat)
    requires current < UIntLimit
    ensures current <= r < UIntLimit
    ensures r > current <==> StrToULong(value).Some? && StrToULong(value).value > current && current < UIntLimit - 1
    ensures StrToULong(value).Some? && current < StrToULong(value).value < UIntLimit ==> r == StrToULong(value).value
  {
    match StrToULong(value)
    case None => current
    case Some(v) => if current < v then (if v < UIntLimit then v else UIntLimit - 1) else current
  }

  /** The two agree wherever the value fits an unsigned int. */
  lemma RaisedAgrees(current: nat, n: nat)
    requires current < UIntLimit && n < UIntLimit
    ensures Raised(current, Decimal(n)) == RaisedAsWritten(current, Decimal(n))
  {
    StrToULongDecimal(n);
    assert n % UIntLimit == n;
  }

  /** The logger's verbosity level, an unsigned int. */
  class Logger {
    var verbosity: nat

    predicate Valid()
      reads this
    {
      verbosity < UIntLimit
    }

    constructor(initial: nat)
      requires initial < UIntLimit
      ensures Valid() && verbosity == initial
    {
      verbosity := initial;
    }

    /** Raises the level to a numeric value above it; anything else leaves it. */
    method RaiseVerbosity(value: string)
      requires Valid()
      modifies this
      ensures Valid() && verbosity == Raised(old(verbosity), value)
    {
      var parsed := StrToULong(value);
      if parsed.Some? {
        if verbosity < parsed.value {
          verbosity := if parsed.value < UIntLimit then parsed.value else UIntLimit - 1;
        }
      }
    }
  }

  /** A title, a newline, a row of '-' as long as the title, a newline. */
  function HeadLine(title: string): (r: string)
    ensures |r| == 2 * |title| + 2
    ensures r[..|title|] == title && r[|title|] == '\n' && r[|r| - 1] == '\n'
    ensures forall i :: |title| < i < |r| - 1 ==> r[i] == '-'
  {
    title + "\n" + Repeat('-', |title|) + "\n"
  }

  /**
   * SettingsFind: the text after the first "key:" up to the next newline;
   * "" when the key is missing, ends the content, has no newline after it,
   * or is directly followed by one.
   */
  function SettingsFind(content: string, key: string): string
  {
    var prefix := key + ":";
    match FindSub(content, prefix)
    case None => ""
    case Some(p) =>
      var pos := p + |prefix|;
      if pos < |content| then
        match FindFrom(content, '\n', pos)
        case Some(e) => if e != pos then content[pos..e] else ""
        case None => ""
      else ""
  }

  /**
   * A missing key reads as ""; a value that is found is the line's text
   * right after the first "key:", up to the newline that ends it.
   */
  lemma SettingsFindSpec(content: string, key: string)
    ensures FindSub(content, key + ":").None? ==> SettingsFind(content, key) == ""
    ensures var r := SettingsFind(content, key);
      r != "" ==>
        var pos := FindSub(content, key + ":").value + |key| + 1;
        && FindSub(content, key + ":").Some?
        && pos + |r| < |content| && content[pos..pos + |r|] == r && content[pos + |r|] == '\n'
        && '\n' !in r
  {
  }

  /** What the settings file holds, "key:value\n", reads back as the value. */
  lemma SettingsFindRoundTrip(key: string, value: string)
    requires value != "" && '\n' !in value
    ensures SettingsFind(key + ":" + value + "\n", key) == value
  {
    var content := key + ":" + value + "\n";
    var prefix := key + ":";
    assert content[0..|prefix|] == prefix;
    assert FindSub(content, prefix) == Some(0);
    var pos := |prefix|;
    assert content[pos + |value|] == '\n';
    assert forall j :: pos <= j < pos + |value| ==> content[j] == value[j - pos];
    assert FindFrom(content, '\n', pos) == Some(pos + |value|);
    assert content[pos..pos + |value|] == value;
  }

  /** A key present with nothing before the newline, or at the very end, reads as "". */
  lemma SettingsFindEmpty(key: string, rest: string)
    ensures SettingsFind(key + ":", key) == ""
    ensures SettingsFind(key + ":\n" + rest, key) == ""
  {
    var prefix := key + ":";
    assert (key + ":")[0..|prefix|] == prefix;
    assert FindSub(key + ":", prefix) == Some(0);
    var c := key + ":\n" + rest;
    assert c[0..|prefix|] == prefix;
    assert FindSub(c, prefix) == Some(0);
    assert c[|prefix|] == '\n';
  }

  predicate HasPrefix(s: string, p: string)
  {
    |p| <= |s| && s[..|p|] == p
  }

  /**
   * MessagePath (before quoting): a path below the source directory is
   * shown as "SRC:" and the rest, else one below the binary directory as
   * "BIN:" and the rest, else unchanged. The source directory is tried first.
   */
  function MessagePath(path: string, sourceDir: string, binaryDir: string): (r: string)
  {
    if HasPrefix(path, sourceDir) then "SRC:" + path[|sourceDir|..]
    else if HasPrefix(path, binaryDir) then "BIN:" + path[|binaryDir|..]
    else path
  }

  /**
   * A shortened path names its directory by its tag, and the directory and
   * the rest give the path back; a path below both directories is shown
   * relative to the source directory.
   */
  lemma MessagePathRestores(path: string, sourceDir: string, binaryDir: string)
    ensures var r := MessagePath(path, sourceDir, binaryDir);
      && (HasPrefix(path, sourceDir) ==> r[..4] == "SRC:" && sourceDir + r[4..] == path)
      && (!HasPrefix(path, sourceDir) && HasPrefix(path, binaryDir) ==>
            r[..4] == "BIN:" && binaryDir + r[4..] == path)
      && (!HasPrefix(path, sourceDir) && !HasPrefix(path, binaryDir) ==> r == path)
  {
    var r := MessagePath(path, sourceDir, binaryDir);
    if HasPrefix(path, sourceDir) {
      assert r[4..] == path[|sourceDir|..];
      assert path == path[..|sourceDir|] + path[|sourceDir|..];
    } else if HasPrefix(path, binaryDir) {
      assert r[4..] == path[|binaryDir|..];
      assert path == path[..|binaryDir|] + path[|binaryDir|..];
    }
  }
}
