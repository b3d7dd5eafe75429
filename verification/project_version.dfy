// cmProjectCommand::InitialPass, the VERSION value: its format check and
// the version string and components it is split into, under the two
// behaviours of policy CMP0096.

module ProjectVersion {
  import opened Text
  import opened CMakeMakefile

  /** The most components a version has. */
  const MaxVersionComponents: nat := 4

  /**
   * The regular expression ^([0-9]+(\.[0-9]+(\.[0-9]+(\.[0-9]+)?)?)?)?$
   * without its outer option: at most `n` non-empty digit runs joined by '.'.
   */
  predicate DigitRuns(s: string, n: nat)
    decreases |s|
  {
    n >= 1 &&
    match Find(s, '.')
    case None => s != "" && AllDigits(s)
    case Some(i) => s[..i] != "" && AllDigits(s[..i]) && DigitRuns(s[i + 1..], n - 1)
  }

  /** The version format: empty, or one to four digit runs joined by '.'. */
  predicate ValidVersion(version: string)
  {
    version == "" || DigitRuns(version, MaxVersionComponents)
  }

  /** The fatal error for a version of the wrong format. */
  function InvalidVersionText(version: string): string
  {
    "VERSION \"" + version + "\" format invalid."
  }

  /** A valid version component: non-empty and digits only. */
  predicate Component(c: string)
  {
    c != "" && AllDigits(c)
  }

  predicate AllComponents(parts: seq<string>)
  {
    forall i :: 0 <= i < |parts| ==> Component(parts[i])
  }

  lemma AllComponentsCons(x: string, rest: seq<string>)
    ensures AllComponents([x] + rest) <==> Component(x) && AllComponents(rest)
  {
    var parts := [x] + rest;
    if AllComponents(parts) {
      assert parts[0] == x;
      forall j | 0 <= j < |rest|
        ensures Component(rest[j])
      {
        assert parts[j + 1] == rest[j];
      }
    }
    if Component(x) && AllComponents(rest) {
      forall j | 0 <= j < |parts|
        ensures Component(parts[j])
      {
        if j > 0 {
          assert parts[j] == rest[j - 1];
        }
      }
    }
  }

  /** The format check agrees with the pieces between the dots: at most `n` of them, each a digit run. */
  lemma {:induction false} DigitRunsSplit(s: string, n: nat)
    ensures DigitRuns(s, n) <==> |Split(s, '.')| <= n && AllComponents(Split(s, '.'))
    decreases |s|
  {
    match Find(s, '.')
    case None =>
      assert Split(s, '.') == [s] && [s][0] == s;
    case Some(i) =>
      var rest := Split(s[i + 1..], '.');
      DigitRunsSplit(s[i + 1..], if n == 0 then 0 else n - 1);
      assert Split(s, '.') == [s[..i]] + rest;
      AllComponentsCons(s[..i], rest);
  }

  /** Joining the pieces between the dots with '.' gives the text back. */
  lemma {:induction false} JoinSplit(s: string)
    ensures Join(Split(s, '.'), ".") == s
    decreases |s|
  {
    match Find(s, '.')
    case None =>
    case Some(i) =>
      JoinSplit(s[i + 1..]);
      var rest := Split(s[i + 1..], '.');
      assert Split(s, '.') == [s[..i]] + rest;
      assert s == s[..i] + "." + s[i + 1..];
  }

  /** The components in the four slots, "" for those not given. */
  function Padded(parts: seq<string>): (r: seq<string>)
    requires |parts| <= MaxVersionComponents
    ensures |r| == MaxVersionComponents
    ensures r[..|parts|] == parts && forall i :: |parts| <= i < |r| ==> r[i] == ""
  {
    parts + seq(MaxVersionComponents - |parts|, _ => "")
  }

  /**
   * sscanf's %u on a digit run, as the GNU C library does it: the value
   * modulo 2^32, and 2^32-1 for a value beyond the unsigned long range.
   */
  function ScanUnsigned(c: string): (r: nat)
    ensures r < UIntLimit
  {
    if ParseDecimal(c) < ULongLimit then ParseDecimal(c) % UIntLimit else UIntLimit - 1
  }

  /** The values sscanf("%u.%u.%u.%u") reads from a valid version; none from the empty one. */
  function Scanned(version: string): (r: seq<nat>)
    requires ValidVersion(version)
    ensures |r| <= MaxVersionComponents
    ensures forall i :: 0 <= i < |r| ==> r[i] < UIntLimit
  {
    if version == "" then []
    else
      DigitRunsSplit(version, MaxVersionComponents);
      var parts := Split(version, '.');
      seq(|parts|, i requires 0 <= i < |parts| => ScanUnsigned(parts[i]))
  }

  /** The values printed back with %u. */
  function Printed(values: seq<nat>): (r: seq<string>)
    ensures |r| == |values| && forall i :: 0 <= i < |r| ==> r[i] == Decimal(values[i])
  {
    seq(|values|, i requires 0 <= i < |values| => Decimal(values[i]))
  }

  /** unsigned's digits10: the number of decimal digits every unsigned int can hold. */
  const UIntDigits10: nat := 9

  /** The bytes of each vb buffer as written: digits10. */
  const WrittenBufferBytes: nat := UIntDigits10

  /** The bytes each vb buffer needs: the longest unsigned int's digits and the terminating NUL. */
  const BufferBytes: nat := UIntDigits10 + 2

  /** sprintf("%u") of `v` fits a buffer of `bytes` bytes, its NUL included. */
  predicate FitsBuffer(v: nat, bytes: nat)
  {
    |Decimal(v)| + 1 <= bytes
  }

  /** A number below 10^k has at most k digits. */
  lemma {:induction false} DecimalLength(v: nat, k: nat, bound: nat)
    requires bound >= 1 && v < bound
    requires k >= 1 && bound <= Pow10(k)
    ensures |Decimal(v)| <= k
    decreases k
  {
    if v >= 10 {
      assert k >= 2;
      DecimalLength(v / 10, k - 1, Pow10(k - 1));
    }
  }

  function Pow10(k: nat): (r: nat)
    ensures r >= 1
  {
    if k == 0 then 1 else 10 * Pow10(k - 1)
  }

  /** Every unsigned int printed with %u fits the buffer of digits10 + 2 bytes. */
  lemma BufferFitsEveryUnsigned(v: nat)
    requires v < UIntLimit
    ensures FitsBuffer(v, BufferBytes)
  {
    assert Pow10(10) == 10000000000;
    DecimalLength(v, 10, Pow10(10));
  }

  /** The buffer of digits10 bytes is overrun by the valid version "100000000", whose component is an unsigned int. */
  lemma WrittenBufferOverrun()
    ensures ValidVersion("100000000")
    ensures Scanned("100000000") == [100000000]
    ensures !FitsBuffer(Scanned("100000000")[0], WrittenBufferBytes)
  {
    assert Find("100000000", '.') == None;
    assert Split("100000000", '.') == ["100000000"];
    HundredMillionDigits();
    DecimalRoundTrip(100000000);
  }

  /** 100000000 prints as nine digits. */
  lemma HundredMillionDigits()
    ensures Decimal(100000000) == "100000000"
  {
    assert Decimal(1) == "1";
    assert Decimal(10) == "10";
    assert Decimal(100) == "100";
    assert Decimal(1000) == "1000";
    assert Decimal(10000) == "10000";
    assert Decimal(100000) == "100000";
    assert Decimal(1000000) == "1000000";
    assert Decimal(10000000) == "10000000";
  }

  /**
   * The CMP0096 OLD/WARN loop: each value read is printed with %u into its
   * buffer, appended to the version string after a '.' (none before the
   * first), and stored as that component; the others stay "".
   */
  method PrintComponents(values: seq<nat>) returns (versionString: string, components: seq<string>)
    requires |values| <= MaxVersionComponents && forall i :: 0 <= i < |values| ==> values[i] < UIntLimit
    ensures versionString == Join(Printed(values), ".")
    ensures components == Padded(Printed(values))
    ensures forall i :: 0 <= i < |values| ==> FitsBuffer(values[i], BufferBytes)
  {
    versionString := "";
    components := ["", "", "", ""];
    ghost var n := 0;
    var i := 0;
    while i < MaxVersionComponents
      invariant i <= MaxVersionComponents && n == (if i < |values| then i else |values|)
      invariant versionString == Join(Printed(values[..n]), ".")
      invariant components == Padded(Printed(values[..n]))
    {
      if i < |values| {
        var vb := Decimal(values[i]);
        if i > 0 {
          JoinSnoc(Printed(values[..i]), vb, ".");
        }
        PrintedSnoc(values, i);
        PaddedSnoc(Printed(values[..i]), vb);
        versionString := versionString + (if i == 0 then "" else ".") + vb;
        components := components[i := vb];
        n := n + 1;
      }
      i := i + 1;
    }
    assert values[..|values|] == values;
    forall j | 0 <= j < |values|
      ensures FitsBuffer(values[j], BufferBytes)
    {
      BufferFitsEveryUnsigned(values[j]);
    }
  }

  lemma PaddedSnoc(parts: seq<string>, x: string)
    requires |parts| < MaxVersionComponents
    ensures Padded(parts)[|parts| := x] == Padded(parts + [x])
  {
  }

  lemma PrintedSnoc(values: seq<nat>, i: nat)
    requires i < |values|
    ensures Printed(values[..i + 1]) == Printed(values[..i]) + [Decimal(values[i])]
  {
  }

  /** The version string and components under CMP0096 OLD/WARN, read with %u and printed back. */
  function OldVersionStrings(version: string): (string, seq<string>)
    requires ValidVersion(version)
  {
    (Join(Printed(Scanned(version)), "."), Padded(Printed(Scanned(version))))
  }

  /** Under CMP0096 NEW the version is kept and its components are the pieces between the dots. */
  function NewVersionStrings(version: string): (string, seq<string>)
    requires ValidVersion(version)
  {
    DigitRunsSplit(version, MaxVersionComponents);
    (version, Padded(Split(version, '.')))
  }

  /** The version string and components under either behaviour of CMP0096. */
  method VersionStrings(version: string, cmp0096: PolicyStatus) returns (versionString: string, components: seq<string>)
    requires ValidVersion(version)
    ensures (versionString, components) ==
      if cmp0096 == Old || cmp0096 == Warn then OldVersionStrings(version) else NewVersionStrings(version)
  {
    if cmp0096 == Old || cmp0096 == Warn {
      versionString, components := PrintComponents(Scanned(version));
    } else {
      DigitRunsSplit(version, MaxVersionComponents);
      versionString := version;
      var parts := Split(version, '.');
      components := ["", "", "", ""];
      var i := 0;
      while i < |parts|
        invariant i <= |parts| && |components| == MaxVersionComponents
        invariant forall j :: 0 <= j < i ==> components[j] == parts[j]
        invariant forall j :: i <= j < |components| ==> components[j] == ""
      {
        components := components[i := parts[i]];
        i := i + 1;
      }
      assert components == Padded(parts);
    }
  }

  /** A component without a leading zero. */
  predicate Canonical(c: string)
  {
    Component(c) && (|c| == 1 || c[0] != '0')
  }

  lemma {:induction false} ParsePositive(c: string)
    requires Canonical(c) && c[0] != '0'
    ensures ParseDecimal(c) >= 1
    decreases |c|
  {
    if |c| > 1 {
      ParsePositive(c[..|c| - 1]);
    }
  }

  /** A component without a leading zero is the printed form of its value. */
  lemma {:induction false} CanonicalRoundTrip(c: string)
    requires Canonical(c)
    ensures Decimal(ParseDecimal(c)) == c
    decreases |c|
  {
    if |c| > 1 {
      var init := c[..|c| - 1];
      CanonicalRoundTrip(init);
      ParsePositive(init);
      var n := ParseDecimal(c);
      assert n / 10 == ParseDecimal(init) && n % 10 == DigitValue(c[|c| - 1]);
      assert c == init + [c[|c| - 1]];
    }
  }

  /** The NEW version string is the components joined by '.', in order: nothing is lost or added. */
  lemma NewVersionRoundTrip(version: string)
    requires ValidVersion(version)
    ensures var (s, comps) := NewVersionStrings(version);
      s == version && Join(comps[..|Split(version, '.')|], ".") == version
  {
    DigitRunsSplit(version, MaxVersionComponents);
    JoinSplit(version);
  }

  /** Components without leading zeros, each below 2^32. */
  predicate CanonicalFits(parts: seq<string>)
  {
    forall i :: 0 <= i < |parts| ==> Canonical(parts[i]) && ParseDecimal(parts[i]) < UIntLimit
  }

  /** Reading and reprinting the components of such a version gives its pieces back. */
  lemma PrintedScanned(version: string)
    requires ValidVersion(version) && version != ""
    requires CanonicalFits(Split(version, '.'))
    ensures Printed(Scanned(version)) == Split(version, '.')
  {
    var parts := Split(version, '.');
    var scanned := Scanned(version);
    assert |scanned| == |parts|;
    var printed := Printed(scanned);
    forall i | 0 <= i < |parts|
      ensures printed[i] == parts[i]
    {
      assert scanned[i] == ScanUnsigned(parts[i]);
      ComponentReprinted(parts[i]);
    }
    assert printed == parts;
  }

  /** A component without leading zeros that fits an unsigned int is read and printed back unchanged. */
  lemma ComponentReprinted(c: string)
    requires Canonical(c) && ParseDecimal(c) < UIntLimit
    ensures Decimal(ScanUnsigned(c)) == c
  {
    var n := ParseDecimal(c);
    assert n < ULongLimit;
    assert n % UIntLimit == n;
    CanonicalRoundTrip(c);
  }

  /** The two behaviours agree on a version whose components have no leading zeros and fit an unsigned int. */
  lemma BehavioursAgree(version: string)
    requires ValidVersion(version) && version != ""
    requires CanonicalFits(Split(version, '.'))
    ensures OldVersionStrings(version) == NewVersionStrings(version)
  {
    PrintedScanned(version);
    JoinSplit(version);
  }

  /** Under OLD/WARN leading zeros are dropped: "1.02" becomes "1.2". */
  lemma OldDropsLeadingZeros()
    ensures ValidVersion("1.02")
    ensures OldVersionStrings("1.02") == ("1.2", ["1", "2", "", ""])
    ensures NewVersionStrings("1.02") == ("1.02", ["1", "02", "", ""])
  {
    SplitExample();
    ScannedExample();
    assert Printed([1, 2]) == ["1", "2"];
    assert Join(["1", "2"], ".") == "1.2";
    assert Padded(["1", "2"]) == ["1", "2", "", ""];
    assert Padded(["1", "02"]) == ["1", "02", "", ""];
  }

  lemma SplitExample()
    ensures Split("1.02", '.') == ["1", "02"]
  {
    assert Find("1.02", '.') == Some(1);
    assert "1.02"[..1] == "1" && "1.02"[2..] == "02";
    assert Find("1", '.') == None && Find("02", '.') == None;
    assert Split("02", '.') == ["02"];
  }

  lemma ScannedExample()
    ensures ValidVersion("1.02") && Scanned("1.02") == [1, 2]
  {
    SplitExample();
    assert DigitRuns("02", 3);
    assert ParseDecimal("1") == 1;
    assert "02"[..1] == "0" && ParseDecimal("0") == 0 && ParseDecimal("02") == 2;
  }

  /** The empty version gives an empty string and empty components under both behaviours. */
  lemma EmptyVersion()
    ensures OldVersionStrings("") == ("", ["", "", "", ""])
    ensures NewVersionStrings("") == ("", ["", "", "", ""])
  {
    assert Split("", '.') == [""];
    assert Padded([]) == ["", "", "", ""];
    assert Padded([""]) == ["", "", "", ""];
  }
}
