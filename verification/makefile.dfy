// The part of cmMakefile the project() and get_cmake_property() commands
// use: its variables and cache entries, the messages issued to it, the
// fatal-error flag, the project name, the languages enabled and the files
// read. cmMakefile itself is not part of this model; these operations are
// reduced to their effect on that state.

module CMakeMakefile {
  import opened Text

  /** A message issued to the makefile, by its type. */
  datatype Message = Warning(text: string) | AuthorWarning(text: string) | FatalError(text: string)

  /** A policy setting. */
  datatype PolicyStatus = Old | Warn | New | RequiredIfUsed | RequiredAlways

  /** The makefile's state as these commands see and change it. */
  datatype MakefileState = MakefileState(
    definitions: map<string, string>,
    cache: map<string, string>,
    messages: seq<Message>,
    fatalErrorOccurred: bool,
    projectName: string,
    enabledLanguages: seq<seq<string>>,
    readFiles: seq<string>)

  /** GetDefinition: a variable, else the cache entry of that name. */
  function Visible(st: MakefileState, name: string): (r: Option<string>)
    ensures name in st.definitions ==> r == Some(st.definitions[name])
    ensures name !in st.definitions && name in st.cache ==> r == Some(st.cache[name])
    ensures r.None? <==> name !in st.definitions && name !in st.cache
  {
    if name in st.definitions then Some(st.definitions[name])
    else if name in st.cache then Some(st.cache[name])
    else None
  }

  /** A makefile: the state above, with its current directories and whether it is the top-level one. */
  class Makefile {
    var definitions: map<string, string>
    var cache: map<string, string>
    var messages: seq<Message>
    var fatalErrorOccurred: bool
    var projectName: string
    var enabledLanguages: seq<seq<string>>
    var readFiles: seq<string>
    const isRoot: bool
    const currentSourceDirectory: string
    const currentBinaryDirectory: string

    function State(): MakefileState
      reads this
    {
      MakefileState(definitions, cache, messages, fatalErrorOccurred, projectName, enabledLanguages, readFiles)
    }

    constructor(st: MakefileState, isRoot: bool, sourceDir: string, binaryDir: string)
      ensures State() == st
      ensures this.isRoot == isRoot && currentSourceDirectory == sourceDir && currentBinaryDirectory == binaryDir
    {
      definitions, cache, messages := st.definitions, st.cache, st.messages;
      fatalErrorOccurred, projectName := st.fatalErrorOccurred, st.projectName;
      enabledLanguages, readFiles := st.enabledLanguages, st.readFiles;
      this.isRoot, currentSourceDirectory, currentBinaryDirectory := isRoot, sourceDir, binaryDir;
    }

    function GetDefinition(name: string): Option<string>
      reads this
    {
      Visible(State(), name)
    }

    /** AddDefinition: the variable now holds `value`. */
    method AddDefinition(name: string, value: string)
      modifies this
      ensures State() == old(State()).(definitions := old(definitions)[name := value])
      ensures GetDefinition(name) == Some(value)
    {
      definitions := definitions[name := value];
    }

    /** AddCacheDefinition: the cache entry now holds `value`. */
    method AddCacheDefinition(name: string, value: string)
      modifies this
      ensures State() == old(State()).(cache := old(cache)[name := value])
    {
      cache := cache[name := value];
    }

    method IssueMessage(m: Message)
      modifies this
      ensures State() == old(State()).(messages := old(messages) + [m])
    {
      messages := messages + [m];
    }

    /** cmSystemTools::SetFatalErrorOccured, kept with the makefile. */
    method SetFatalErrorOccurred()
      modifies this
      ensures State() == old(State()).(fatalErrorOccurred := true)
    {
      fatalErrorOccurred := true;
    }

    method SetProjectName(name: string)
      modifies this
      ensures State() == old(State()).(projectName := name)
    {
      projectName := name;
    }

    method EnableLanguage(languages: seq<string>)
      modifies this
      ensures State() == old(State()).(enabledLanguages := old(enabledLanguages) + [languages])
    {
      enabledLanguages := enabledLanguages + [languages];
    }

    /** ReadDependentFile: succeeds for the files in `readable`, which are recorded as read. */
    method ReadDependentFile(file: string, readable: set<string>) returns (read: bool)
      modifies this
      ensures read <==> file in readable
      ensures State() == if read then old(State()).(readFiles := old(readFiles) + [file]) else old(State())
    {
      read := file in readable;
      if read {
        readFiles := readFiles + [file];
      }
    }
  }
}
