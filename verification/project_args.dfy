// cmProjectCommand::InitialPass, the argument loop: the LANGUAGES, VERSION,
// DESCRIPTION and HOMEPAGE_URL keywords, the values that follow them, the
// language names, and the warnings and errors issued on the way.

module ProjectArgs {
  import opened Text
  import opened CMakeMakefile

  /** What the next argument is taken as. */
  datatype Doing = DoingDescription | DoingHomepage | DoingLanguages | DoingVersion

  /** The keywords, values and languages the arguments give. */
  datatype Parsed = Parsed(
    haveVersion: bool, haveLanguages: bool, haveDescription: bool, haveHomepage: bool,
    injected: bool,
    version: string, description: string, homepage: string,
    languages: seq<string>)

  /** The loop stops at a keyword given a second time; otherwise it yields what it parsed. */
  datatype ParseOutcome = RepeatedKeyword(keyword: string) | Arguments(parsed: Parsed)

  const Injected := "__CMAKE_INJECTED_PROJECT_COMMAND__"

  datatype Keyword = Languages | Version | Description | Homepage

  /** The keyword's own spelling. */
  function Name(k: Keyword): string
  {
    match k
    case Languages => "LANGUAGES"
    case Version => "VERSION"
    case Description => "DESCRIPTION"
    case Homepage => "HOMEPAGE_URL"
  }

  /** The keyword an argument spells, if any. */
  function KeywordOf(a: string): Option<Keyword>
  {
    if a == "LANGUAGES" then Some(Languages)
    else if a == "VERSION" then Some(Version)
    else if a == "DESCRIPTION" then Some(Description)
    else if a == "HOMEPAGE_URL" then Some(Homepage)
    else None
  }

  /** Exactly the four spellings are keywords, each naming itself. */
  lemma KeywordOfSpelling(a: string)
    ensures KeywordOf(a).Some? <==> a in {"LANGUAGES", "VERSION", "DESCRIPTION", "HOMEPAGE_URL"}
    ensures KeywordOf(a).Some? ==> Name(KeywordOf(a).value) == a
    ensures forall k :: KeywordOf(Name(k)) == Some(k)
  {
  }

  /** The keyword each argument spells. */
  function Kinds(args: seq<string>): (kws: seq<Option<Keyword>>)
    ensures |kws| == |args|
  {
    seq(|args|, i requires 0 <= i < |args| => KeywordOf(args[i]))
  }

  /** The keywords whose next argument is their value. */
  predicate TakesValue(k: Option<Keyword>)
  {
    k.Some? && k.value != Languages
  }

  const RepeatSuffix := " may be specified at most once."
  const MissedSuffix := " keyword not followed by a value or was followed by a value that expanded to nothing."
  const LanguagesFirstPrefix := "the following parameters must be specified after LANGUAGES keyword: "

  function RepeatText(keyword: string): string
  {
    keyword + RepeatSuffix
  }

  function MissedText(keyword: string): string
  {
    keyword + MissedSuffix
  }

  function LanguagesFirstText(languages: seq<string>): string
  {
    LanguagesFirstPrefix + Join(languages, ", ") + "."
  }

  /* The reference reading of the arguments, given the keyword each one
     spells (`kws`, see Kinds). The project name is args[0]; the mode at
     argument i depends only on the argument before it. */

  /** The mode in which argument i is read. */
  function ModeAt(kws: seq<Option<Keyword>>, i: nat): Doing
    requires 1 <= i <= |kws|
  {
    if i >= 2 && kws[i - 1] == Some(Version) then DoingVersion
    else if i >= 2 && kws[i - 1] == Some(Description) then DoingDescription
    else if i >= 2 && kws[i - 1] == Some(Homepage) then DoingHomepage
    else DoingLanguages
  }

  /** The keyword whose missing-value warning is pending when argument i is read. */
  function PendingAt(kws: seq<Option<Keyword>>, i: nat): Option<Keyword>
    requires 1 <= i <= |kws|
  {
    if i >= 2 && TakesValue(kws[i - 1]) then kws[i - 1] else None
  }

  /** Argument i is the value of the keyword before it. */
  predicate IsValueAt(kws: seq<Option<Keyword>>, i: nat)
    requires 1 <= i < |kws|
  {
    i >= 2 && TakesValue(kws[i - 1]) && kws[i].None?
  }

  /** Argument i is the injection marker, recognised only right after the project name. */
  predicate InjectedAt(args: seq<string>, kws: seq<Option<Keyword>>, i: nat)
    requires |kws| == |args| && 1 <= i < |args|
  {
    i == 1 && kws[i].None? && args[i] == Injected
  }

  /** Argument i is a language name: no keyword, no value, and not the injection marker right after the name. */
  predicate IsLanguageAt(args: seq<string>, kws: seq<Option<Keyword>>, i: nat)
    requires |kws| == |args| && 1 <= i < |args|
  {
    kws[i].None? && !InjectedAt(args, kws, i) && !IsValueAt(kws, i)
  }

  /** The keyword `k` is among arguments 1 .. n-1. */
  predicate Seen(kws: seq<Option<Keyword>>, k: Keyword, n: nat)
    requires 1 <= n <= |kws|
  {
    n > 1 && (kws[n - 1] == Some(k) || Seen(kws, k, n - 1))
  }

  /** The first argument below n that repeats a keyword. */
  function RepeatBefore(kws: seq<Option<Keyword>>, n: nat): (r: Option<nat>)
    requires 1 <= n <= |kws|
    ensures r.Some? ==> 1 <= r.value < n
  {
    if n == 1 then None
    else if RepeatBefore(kws, n - 1).Some? then RepeatBefore(kws, n - 1)
    else if kws[n - 1].Some? && Seen(kws, kws[n - 1].value, n - 1) then Some(n - 1)
    else None
  }

  /** The language names among arguments 1 .. n-1, in order. */
  function LanguagesBefore(args: seq<string>, kws: seq<Option<Keyword>>, n: nat): seq<string>
    requires |kws| == |args| && 1 <= n <= |args|
  {
    if n == 1 then []
    else LanguagesBefore(args, kws, n - 1) + (if IsLanguageAt(args, kws, n - 1) then [args[n - 1]] else [])
  }

  /** The last value of keyword `k` among arguments 1 .. n-1, "" if none. */
  function ValueBefore(args: seq<string>, kws: seq<Option<Keyword>>, k: Keyword, n: nat): string
    requires |kws| == |args| && 1 <= n <= |args|
  {
    if n == 1 then ""
    else if IsValueAt(kws, n - 1) && kws[n - 2] == Some(k) then args[n - 1]
    else ValueBefore(args, kws, k, n - 1)
  }

  /** The pending warning as a message list. */
  function Fired(pending: Option<Keyword>): seq<Message>
  {
    if pending.Some? then [Warning(MissedText(Name(pending.value)))] else []
  }

  /**
   * The messages issued for argument j. LANGUAGES, VERSION and DESCRIPTION
   * fire the pending warning; HOMEPAGE_URL does too only when
   * `homepageFires` holds (see MessagesAsWrittenLoseWarning).
   */
  function Issued(args: seq<string>, kws: seq<Option<Keyword>>, j: nat, homepageFires: bool): seq<Message>
    requires |kws| == |args| && 1 <= j < |args|
  {
    var k := kws[j];
    if k == Some(Languages) then
      Fired(PendingAt(kws, j)) +
        (if LanguagesBefore(args, kws, j) != [] then [Warning(LanguagesFirstText(LanguagesBefore(args, kws, j)))] else [])
    else if k == Some(Version) || k == Some(Description) || (k == Some(Homepage) && homepageFires) then
      Fired(PendingAt(kws, j))
    else []
  }

  /** The messages issued for arguments 1 .. n-1. */
  function MessagesBefore(args: seq<string>, kws: seq<Option<Keyword>>, n: nat, homepageFires: bool): seq<Message>
    requires |kws| == |args| && 1 <= n <= |args|
  {
    if n == 1 then []
    else MessagesBefore(args, kws, n - 1, homepageFires) + Issued(args, kws, n - 1, homepageFires)
  }

  /** What the arguments parse to when no keyword repeats. */
  function ParsedFrom(args: seq<string>, kws: seq<Option<Keyword>>): Parsed
    requires |kws| == |args| >= 1
  {
    var n := |args|;
    Parsed(Seen(kws, Version, n), Seen(kws, Languages, n), Seen(kws, Description, n),
           Seen(kws, Homepage, n), n >= 2 && InjectedAt(args, kws, 1),
           ValueBefore(args, kws, Version, n), ValueBefore(args, kws, Description, n),
           ValueBefore(args, kws, Homepage, n), LanguagesBefore(args, kws, n))
  }

  lemma {:induction false} RepeatStays(kws: seq<Option<Keyword>>, n: nat, m: nat)
    requires 1 <= n <= m <= |kws| && RepeatBefore(kws, n).Some?
    ensures RepeatBefore(kws, m) == RepeatBefore(kws, n)
    decreases m - n
  {
    if n < m {
      assert RepeatBefore(kws, n + 1) == RepeatBefore(kws, n);
      RepeatStays(kws, n + 1, m);
    }
  }

  /** The loop's variables: the have* flags, the values, the languages, the pending warning and the mode. */
  datatype ParseState = ParseState(
    haveVersion: bool, haveLanguages: bool, haveDescription: bool, haveHomepage: bool,
    injected: bool,
    version: string, description: string, homepage: string,
    languages: seq<string>,
    pending: Option<Keyword>,
    doing: Doing)

  /** The loop's variables when argument i is about to be read. */
  function StateAt(args: seq<string>, kws: seq<Option<Keyword>>, i: nat): ParseState
    requires |kws| == |args| && 1 <= i <= |args|
  {
    ParseState(Seen(kws, Version, i), Seen(kws, Languages, i), Seen(kws, Description, i),
               Seen(kws, Homepage, i), i >= 2 && InjectedAt(args, kws, 1),
               ValueBefore(args, kws, Version, i), ValueBefore(args, kws, Description, i),
               ValueBefore(args, kws, Homepage, i), LanguagesBefore(args, kws, i),
               PendingAt(kws, i), ModeAt(kws, i))
  }

  /** Argument i does not repeat a keyword. */
  predicate Fresh(kws: seq<Option<Keyword>>, i: nat)
    requires 1 <= i < |kws|
  {
    !(kws[i].Some? && Seen(kws, kws[i].value, i))
  }

  /** The have* flag of a keyword. */
  function Have(st: ParseState, k: Keyword): bool
  {
    match k
    case Languages => st.haveLanguages
    case Version => st.haveVersion
    case Description => st.haveDescription
    case Homepage => st.haveHomepage
  }

  lemma StepLanguages(args: seq<string>, kws: seq<Option<Keyword>>, i: nat)
    requires |kws| == |args| && 1 <= i < |args| && kws[i] == Some(Languages)
    ensures StateAt(args, kws, i + 1) ==
      StateAt(args, kws, i).(haveLanguages := true, pending := None, doing := DoingLanguages)
    ensures MessagesBefore(args, kws, i + 1, true) ==
      MessagesBefore(args, kws, i, true) + (Fired(PendingAt(kws, i)) +
        (if LanguagesBefore(args, kws, i) != [] then [Warning(LanguagesFirstText(LanguagesBefore(args, kws, i)))] else []))
  {
    assert !IsLanguageAt(args, kws, i) && !IsValueAt(kws, i);
    assert LanguagesBefore(args, kws, i + 1) == LanguagesBefore(args, kws, i);
    assert forall k :: ValueBefore(args, kws, k, i + 1) == ValueBefore(args, kws, k, i);
    assert PendingAt(kws, i + 1) == None && ModeAt(kws, i + 1) == DoingLanguages;
    assert Seen(kws, Languages, i + 1);
    assert forall k :: k != Languages ==> Seen(kws, k, i + 1) == Seen(kws, k, i);
  }

  lemma StepValueKeyword(args: seq<string>, kws: seq<Option<Keyword>>, i: nat, k: Keyword)
    requires |kws| == |args| && 1 <= i < |args| && kws[i] == Some(k) && k != Languages
    ensures var st := StateAt(args, kws, i);
      StateAt(args, kws, i + 1) ==
        (if k == Version then st.(haveVersion := true, doing := DoingVersion)
         else if k == Description then st.(haveDescription := true, doing := DoingDescription)
         else st.(haveHomepage := true, doing := DoingHomepage)).(pending := Some(k))
    ensures MessagesBefore(args, kws, i + 1, true) == MessagesBefore(args, kws, i, true) + Fired(PendingAt(kws, i))
  {
  }

  lemma StepInjected(args: seq<string>, kws: seq<Option<Keyword>>)
    requires |kws| == |args| >= 2 && InjectedAt(args, kws, 1)
    ensures StateAt(args, kws, 2) == StateAt(args, kws, 1).(injected := true)
    ensures MessagesBefore(args, kws, 2, true) == MessagesBefore(args, kws, 1, true)
  {
  }

  lemma StepValue(args: seq<string>, kws: seq<Option<Keyword>>, i: nat)
    requires |kws| == |args| && 1 <= i < |args| && kws[i].None? && !InjectedAt(args, kws, i)
    requires ModeAt(kws, i) != DoingLanguages
    ensures var st := StateAt(args, kws, i);
      StateAt(args, kws, i + 1) ==
        (if st.doing == DoingVersion then st.(version := args[i])
         else if st.doing == DoingDescription then st.(description := args[i])
         else st.(homepage := args[i])).(doing := DoingLanguages, pending := None)
    ensures MessagesBefore(args, kws, i + 1, true) == MessagesBefore(args, kws, i, true)
  {
  }

  lemma StepLanguage(args: seq<string>, kws: seq<Option<Keyword>>, i: nat)
    requires |kws| == |args| && 1 <= i < |args| && kws[i].None? && !InjectedAt(args, kws, i)
    requires ModeAt(kws, i) == DoingLanguages
    ensures StateAt(args, kws, i + 1) ==
      StateAt(args, kws, i).(languages := StateAt(args, kws, i).languages + [args[i]])
    ensures MessagesBefore(args, kws, i + 1, true) == MessagesBefore(args, kws, i, true)
  {
  }

  /** One argument that repeats no keyword: the loop's variables after it and the messages it issues. */
  method ReadArgument(args: seq<string>, ghost kws: seq<Option<Keyword>>, i: nat, st: ParseState, kw: Option<Keyword>)
    returns (next: ParseState, issued: seq<Message>)
    requires |kws| == |args| && 1 <= i < |args| && kw == kws[i]
    requires st == StateAt(args, kws, i)
    ensures next == StateAt(args, kws, i + 1)
    ensures MessagesBefore(args, kws, i + 1, true) == MessagesBefore(args, kws, i, true) + issued
  {
    next, issued := st, [];
    match kw {
      case Some(Languages) =>
        StepLanguages(args, kws, i);
        issued := Fired(st.pending);
        if st.languages != [] {
          issued := issued + [Warning(LanguagesFirstText(st.languages))];
        }
        next := st.(haveLanguages := true, pending := None, doing := DoingLanguages);
      case Some(k) =>
        StepValueKeyword(args, kws, i, k);
        if k == Version {
          next := st.(haveVersion := true, doing := DoingVersion);
        } else if k == Description {
          next := st.(haveDescription := true, doing := DoingDescription);
        } else {
          next := st.(haveHomepage := true, doing := DoingHomepage);
        }
        issued := Fired(st.pending);
        next := next.(pending := Some(k));
      case None =>
        if i == 1 && args[i] == Injected {
          StepInjected(args, kws);
          next := st.(injected := true);
        } else if st.doing == DoingVersion {
          StepValue(args, kws, i);
          next := st.(doing := DoingLanguages, version := args[i], pending := None);
        } else if st.doing == DoingDescription {
          StepValue(args, kws, i);
          next := st.(doing := DoingLanguages, description := args[i], pending := None);
        } else if st.doing == DoingHomepage {
          StepValue(args, kws, i);
          next := st.(doing := DoingLanguages, homepage := args[i], pending := None);
        } else {
          StepLanguage(args, kws, i);
          next := st.(languages := st.languages + [args[i]]);
        }
    }
  }

  /** Everything the loop issues when no keyword repeats: the messages on the way and the warning still pending at the end. */
  function AllMessages(args: seq<string>, kws: seq<Option<Keyword>>, homepageFires: bool): seq<Message>
    requires |kws| == |args| >= 1
  {
    MessagesBefore(args, kws, |args|, homepageFires) + Fired(PendingAt(kws, |args|))
  }

  /**
   * What the loop yields: at the first repeated keyword, the messages so far
   * and the fatal error; otherwise the parsed arguments and all messages.
   */
  function Reading(args: seq<string>): (ParseOutcome, seq<Message>)
    requires |args| >= 1
  {
    var kws := Kinds(args);
    var r := RepeatBefore(kws, |args|);
    if r.Some? then
      (RepeatedKeyword(args[r.value]), MessagesBefore(args, kws, r.value, true) + [FatalError(RepeatText(args[r.value]))])
    else (Arguments(ParsedFrom(args, kws)), AllMessages(args, kws, true))
  }

  /** Argument i is the first repeat exactly when the loop's have* flag for its keyword is already set. */
  lemma RepeatStep(args: seq<string>, kws: seq<Option<Keyword>>, i: nat)
    requires |kws| == |args| && 1 <= i < |args| && RepeatBefore(kws, i).None?
    ensures var st := StateAt(args, kws, i);
      && (kws[i].Some? && Have(st, kws[i].value) ==> RepeatBefore(kws, |args|) == Some(i))
      && (!(kws[i].Some? && Have(st, kws[i].value)) ==> RepeatBefore(kws, i + 1).None?)
  {
    var st := StateAt(args, kws, i);
    if kws[i].Some? {
      var k := kws[i].value;
      assert Have(st, k) == Seen(kws, k, i) by {
        match k {
          case Languages =>
          case Version =>
          case Description =>
          case Homepage =>
        }
      }
      if Have(st, k) {
        RepeatStays(kws, i + 1, |args|);
      }
    }
  }

  /**
   * The argument loop. The HOMEPAGE_URL branch fires the pending
   * missing-value warning, as the LANGUAGES, VERSION and DESCRIPTION
   * branches do.
   */
  method ParseArguments(args: seq<string>) returns (outcome: ParseOutcome, messages: seq<Message>)
    requires |args| >= 1
    ensures (outcome, messages) == Reading(args)
  {
    ghost var kws := Kinds(args);
    var st := ParseState(false, false, false, false, false, "", "", "", [], None, DoingLanguages);
    messages := [];
    var i := 1;
    while i < |args|
      invariant 1 <= i <= |args| && RepeatBefore(kws, i).None?
      invariant st == StateAt(args, kws, i)
      invariant messages == MessagesBefore(args, kws, i, true)
    {
      var kw := KeywordOf(args[i]);
      assert kw == kws[i];
      RepeatStep(args, kws, i);
      if kw.Some? && Have(st, kw.value) {
        outcome := RepeatedKeyword(args[i]);
        messages := messages + [FatalError(RepeatText(args[i]))];
        return;
      }
      var issued;
      st, issued := ReadArgument(args, kws, i, st, kw);
      messages := messages + issued;
      i := i + 1;
    }
    messages := messages + Fired(st.pending);
    outcome := Arguments(Parsed(st.haveVersion, st.haveLanguages, st.haveDescription, st.haveHomepage,
                                st.injected, st.version, st.description, st.homepage, st.languages));
  }

  /* Properties of the reference reading. */

  /** A keyword is seen below n exactly when some argument 1 .. n-1 spells it. */
  lemma {:induction false} SeenSpec(kws: seq<Option<Keyword>>, k: Keyword, n: nat)
    requires 1 <= n <= |kws|
    ensures Seen(kws, k, n) <==> exists j :: 1 <= j < n && kws[j] == Some(k)
  {
    if n > 1 {
      SeenSpec(kws, k, n - 1);
      if Seen(kws, k, n) && kws[n - 1] == Some(k) {
        assert 1 <= n - 1 < n && kws[n - 1] == Some(k);
      }
    }
  }

  /** With no repeat below n, no keyword is spelled twice among arguments 1 .. n-1. */
  lemma {:induction false} NoRepeatDistinct(kws: seq<Option<Keyword>>, n: nat, a: nat, b: nat)
    requires 1 <= n <= |kws| && RepeatBefore(kws, n).None?
    requires 1 <= a < b < n && kws[b].Some?
    ensures kws[a] != kws[b]
  {
    if b < n - 1 {
      NoRepeatDistinct(kws, n - 1, a, b);
    } else {
      SeenSpec(kws, kws[b].value, b);
    }
  }

  /**
   * The repeat found is the first argument that spells a keyword already
   * spelled before it, and nothing before it repeats.
   */
  lemma {:induction false} RepeatBeforeSpec(kws: seq<Option<Keyword>>, n: nat)
    requires 1 <= n <= |kws| && RepeatBefore(kws, n).Some?
    ensures var r := RepeatBefore(kws, n).value;
      && kws[r].Some?
      && (exists j :: 1 <= j < r && kws[j] == kws[r])
      && RepeatBefore(kws, r).None?
  {
    if RepeatBefore(kws, n - 1).Some? {
      RepeatBeforeSpec(kws, n - 1);
    } else {
      SeenSpec(kws, kws[n - 1].value, n - 1);
    }
  }

  /** A keyword that is never spelled has the empty value. */
  lemma {:induction false} ValueAbsent(args: seq<string>, kws: seq<Option<Keyword>>, k: Keyword, n: nat)
    requires |kws| == |args| && 1 <= n <= |args| && !Seen(kws, k, n)
    ensures ValueBefore(args, kws, k, n) == ""
  {
    if n > 1 {
      SeenSpec(kws, k, n);
      ValueAbsent(args, kws, k, n - 1);
    }
  }

  /** With no repeat, the argument right after a value keyword, when it is no keyword, is that keyword's value. */
  lemma {:induction false} ValueTaken(args: seq<string>, kws: seq<Option<Keyword>>, k: Keyword, j: nat, n: nat)
    requires |kws| == |args| && 2 <= j < n <= |args| && RepeatBefore(kws, n).None?
    requires k != Languages && kws[j - 1] == Some(k) && kws[j].None?
    ensures ValueBefore(args, kws, k, n) == args[j]
  {
    if n - 1 == j {
      assert IsValueAt(kws, j);
    } else {
      assert RepeatBefore(kws, n - 1).None?;
      if IsValueAt(kws, n - 1) && kws[n - 2] == Some(k) {
        NoRepeatDistinct(kws, n, j - 1, n - 2);
        assert false;
      }
      ValueTaken(args, kws, k, j, n - 1);
    }
  }

  /**
   * The language names are the arguments that spell no keyword, are no value
   * and are not the marker right after the project name, in order.
   */
  lemma {:induction false} LanguagesBeforeSpec(args: seq<string>, kws: seq<Option<Keyword>>, n: nat)
    requires |kws| == |args| && 1 <= n <= |args|
    ensures var langs := LanguagesBefore(args, kws, n);
      && |langs| <= n - 1
      && (forall l :: l in langs ==> exists j :: 1 <= j < n && args[j] == l && IsLanguageAt(args, kws, j))
      && (forall j :: 1 <= j < n && IsLanguageAt(args, kws, j) ==> args[j] in langs)
  {
    if n > 1 {
      LanguagesBeforeSpec(args, kws, n - 1);
      var prev := LanguagesBefore(args, kws, n - 1);
      var langs := LanguagesBefore(args, kws, n);
      forall l | l in langs
        ensures exists j :: 1 <= j < n && args[j] == l && IsLanguageAt(args, kws, j)
      {
        if l !in prev {
          assert 1 <= n - 1 < n && args[n - 1] == l && IsLanguageAt(args, kws, n - 1);
        }
      }
    }
  }

  /** No language name spells a keyword. */
  lemma LanguagesNotKeywords(args: seq<string>, n: nat)
    requires 1 <= n <= |args|
    ensures forall l :: l in LanguagesBefore(args, Kinds(args), n) ==> KeywordOf(l).None?
  {
    LanguagesBeforeSpec(args, Kinds(args), n);
  }

  /** The marker counts only as the first argument after the project name. */
  lemma InjectedOnlyFirst(args: seq<string>)
    requires |args| >= 1
    ensures ParsedFrom(args, Kinds(args)).injected <==> |args| >= 2 && args[1] == Injected
  {
  }

  /** Later, the marker in language mode is taken as a language name. */
  lemma InjectedLaterIsLanguage(args: seq<string>, i: nat)
    requires 2 <= i < |args| && args[i] == Injected && !TakesValue(Kinds(args)[i - 1])
    ensures Injected in ParsedFrom(args, Kinds(args)).languages
  {
    var kws := Kinds(args);
    assert kws[i] == KeywordOf(Injected) == None;
    assert IsLanguageAt(args, kws, i);
    LanguagesBeforeSpec(args, kws, |args|);
  }

  /** Keyword j takes a value but the argument after it is missing or is itself a keyword. */
  predicate MissingValueAt(kws: seq<Option<Keyword>>, j: nat)
    requires 1 <= j < |kws|
  {
    TakesValue(kws[j]) && (j + 1 == |kws| || kws[j + 1].Some?)
  }

  /** Once arguments 1 .. n-1 are read, every keyword among them left without a value by a keyword after it has been warned about. */
  lemma {:induction false} MissedWarnedBefore(args: seq<string>, kws: seq<Option<Keyword>>, n: nat)
    requires |kws| == |args| && 1 <= n <= |args|
    ensures forall j :: 1 <= j && j + 2 <= n && MissingValueAt(kws, j) ==>
      Warning(MissedText(Name(kws[j].value))) in MessagesBefore(args, kws, n, true)
  {
    if n > 1 {
      MissedWarnedBefore(args, kws, n - 1);
      if n >= 3 && MissingValueAt(kws, n - 2) {
        MissedWarnedNext(args, kws, n - 2);
      }
    }
  }

  /** The keyword after one left without a value issues the warning about it. */
  lemma MissedWarnedNext(args: seq<string>, kws: seq<Option<Keyword>>, j: nat)
    requires |kws| == |args| && 1 <= j && j + 1 < |args| && MissingValueAt(kws, j)
    ensures Warning(MissedText(Name(kws[j].value))) in Issued(args, kws, j + 1, true)
  {
    IssuedFires(args, kws, j + 1);
    assert Fired(PendingAt(kws, j + 1)) == [Warning(MissedText(Name(kws[j].value)))];
  }

  /** Under the corrected reading, every keyword first issues the pending warning. */
  lemma IssuedFires(args: seq<string>, kws: seq<Option<Keyword>>, j: nat)
    requires |kws| == |args| && 1 <= j < |args| && kws[j].Some?
    ensures Fired(PendingAt(kws, j)) <= Issued(args, kws, j, true)
  {
    match kws[j].value {
      case Languages =>
      case Version =>
      case Description =>
      case Homepage =>
    }
  }

  /** Every value keyword left without a value is warned about. */
  lemma MissedValueWarned(args: seq<string>, kws: seq<Option<Keyword>>, j: nat)
    requires |kws| == |args| && 1 <= j < |args| && MissingValueAt(kws, j)
    ensures Warning(MissedText(Name(kws[j].value))) in AllMessages(args, kws, true)
  {
    var w := Warning(MissedText(Name(kws[j].value)));
    if j + 1 == |args| {
      assert Fired(PendingAt(kws, |args|)) == [w];
    } else {
      MissedWarnedBefore(args, kws, |args|);
    }
  }

  /** A message of the reading: a missing-value warning for some keyword left without a value, or the language-order warning. */
  ghost predicate Explained(kws: seq<Option<Keyword>>, m: Message)
  {
    || (exists j :: 1 <= j < |kws| && MissingValueAt(kws, j) && m == Warning(MissedText(Name(kws[j].value))))
    || (exists langs :: m == Warning(LanguagesFirstText(langs)))
  }

  /** The warning pending when argument i is read is about a keyword left without a value, if argument i is a keyword. */
  lemma PendingExplained(kws: seq<Option<Keyword>>, i: nat)
    requires 1 <= i <= |kws| && (i == |kws| || kws[i].Some?)
    ensures forall m :: m in Fired(PendingAt(kws, i)) ==> Explained(kws, m)
  {
    if PendingAt(kws, i).Some? {
      assert MissingValueAt(kws, i - 1);
    }
  }

  lemma {:induction false} MessagesBeforeExplained(args: seq<string>, kws: seq<Option<Keyword>>, n: nat)
    requires |kws| == |args| && 1 <= n <= |args|
    ensures forall m :: m in MessagesBefore(args, kws, n, true) ==> Explained(kws, m)
  {
    if n > 1 {
      MessagesBeforeExplained(args, kws, n - 1);
      IssuedExplained(args, kws, n - 1);
    }
  }

  lemma IssuedExplained(args: seq<string>, kws: seq<Option<Keyword>>, j: nat)
    requires |kws| == |args| && 1 <= j < |args|
    ensures forall m :: m in Issued(args, kws, j, true) ==> Explained(kws, m)
  {
    if kws[j].Some? {
      PendingExplained(kws, j);
      var langs := LanguagesBefore(args, kws, j);
      assert Explained(kws, Warning(LanguagesFirstText(langs)));
    }
  }

  /** Conversely, every message issued is a missing-value warning for a keyword left without one, or the language-order warning. */
  lemma AllMessagesExplained(args: seq<string>, kws: seq<Option<Keyword>>)
    requires |kws| == |args| >= 1
    ensures forall m :: m in AllMessages(args, kws, true) ==> Explained(kws, m)
  {
    MessagesBeforeExplained(args, kws, |args|);
    PendingExplained(kws, |args|);
  }

  /**
   * As written, HOMEPAGE_URL replaces a pending warning without issuing it:
   * `project(P VERSION HOMEPAGE_URL u)` issues nothing, though VERSION has
   * no value; the corrected reading warns about VERSION.
   */
  lemma MessagesAsWrittenLoseWarning()
    ensures var args := ["P", "VERSION", "HOMEPAGE_URL", "u"];
      && MissingValueAt(Kinds(args), 1)
      && AllMessages(args, Kinds(args), false) == []
      && AllMessages(args, Kinds(args), true) == [Warning(MissedText("VERSION"))]
  {
    var args := ["P", "VERSION", "HOMEPAGE_URL", "u"];
    var kws := Kinds(args);
    assert kws == [None, Some(Version), Some(Homepage), None];
    assert PendingAt(kws, 4) == None && PendingAt(kws, 1) == None && PendingAt(kws, 2) == Some(Version);
    assert MessagesBefore(args, kws, 2, false) == [] && MessagesBefore(args, kws, 2, true) == [];
    assert MessagesBefore(args, kws, 4, false) == MessagesBefore(args, kws, 3, false) == [];
    assert MessagesBefore(args, kws, 4, true) == MessagesBefore(args, kws, 3, true) == [Warning(MissedText("VERSION"))];
  }
}
